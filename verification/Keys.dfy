/** Idempotency keys, and the references that the request validators let through. */
module Keys {
  import opened Domain

  function PaymentKey(merchant: Uuid, ref: string): string {
    merchant + ":" + ref
  }

  function RefundKey(merchant: Uuid, originalRef: string): string {
    merchant + ":refund:" + originalRef
  }

  /** The characters of the `safe_id` pattern. */
  predicate SafeChar(c: char) {
    'a' <= c <= 'z' || 'A' <= c <= 'Z' || '0' <= c <= '9' || c == '_' || c == '-' || c == '.'
  }

  predicate SafeId(s: string) {
    s != [] && forall i :: 0 <= i < |s| ==> SafeChar(s[i])
  }

  lemma SafeAppend(s: string, t: string)
    requires SafeId(s) && SafeId(t)
    ensures SafeId(s + t)
  {
  }

  /** Keys are equal exactly when merchant and reference are, for every reference. */
  lemma PaymentKeyInjective(m1: Uuid, r1: string, m2: Uuid, r2: string)
    ensures PaymentKey(m1, r1) == PaymentKey(m2, r2) <==> m1 == m2 && r1 == r2
  {
    SplitPrefix(m1, ":" + r1, m2, ":" + r2);
    assert PaymentKey(m1, r1) == m1 + (":" + r1) && PaymentKey(m2, r2) == m2 + (":" + r2);
    assert (":" + r1)[1..] == r1 && (":" + r2)[1..] == r2;
  }

  lemma RefundKeyInjective(m1: Uuid, r1: string, m2: Uuid, r2: string)
    ensures RefundKey(m1, r1) == RefundKey(m2, r2) <==> m1 == m2 && r1 == r2
  {
    SplitPrefix(m1, ":refund:" + r1, m2, ":refund:" + r2);
    assert RefundKey(m1, r1) == m1 + (":refund:" + r1) && RefundKey(m2, r2) == m2 + (":refund:" + r2);
    assert (":refund:" + r1)[8..] == r1 && (":refund:" + r2)[8..] == r2;
  }

  /** A payment key is a refund key exactly when the payment is named `refund:` and the refunded
      reference; the validators exclude such a name, the key builders alone do not. */
  lemma KeyCollision(m1: Uuid, r1: string, m2: Uuid, r2: string)
    ensures PaymentKey(m1, r1) == RefundKey(m2, r2) <==> m1 == m2 && r1 == "refund:" + r2
    ensures SafeId(r1) ==> PaymentKey(m1, r1) != RefundKey(m2, r2)
  {
    SplitPrefix(m1, ":" + r1, m2, ":refund:" + r2);
    assert PaymentKey(m1, r1) == m1 + (":" + r1) && RefundKey(m2, r2) == m2 + (":refund:" + r2);
    assert (":" + r1)[1..] == r1 && (":refund:" + r2)[1..] == "refund:" + r2;
    assert ("refund:" + r2)[6] == ':';
  }

  lemma SplitPrefix(a: string, x: string, b: string, y: string)
    requires |a| == |b|
    ensures a + x == b + y <==> a == b && x == y
  {
    if a + x == b + y {
      assert a == (a + x)[..|a|] == (b + y)[..|b|] == b;
      assert x == (a + x)[|a|..] == (b + y)[|b|..] == y;
    }
  }

  // ---- request sanitising ----

  function TrimLeft(s: string): string {
    if s != [] && IsSpace(s[0]) then TrimLeft(s[1..]) else s
  }

  function TrimRight(s: string): string {
    if s != [] && IsSpace(s[|s| - 1]) then TrimRight(s[..|s| - 1]) else s
  }

  function EscapeChar(c: char): (e: string)
    ensures e != [] && !IsSpace(c) ==> !IsSpace(e[0]) && !IsSpace(e[|e| - 1])
  {
    if c == '<' then "&lt;" else if c == '>' then "&gt;" else if c == '&' then "&amp;"
    else if c == '\'' then "&#39;" else if c == '"' then "&#34;" else [c]
  }

  function EscapeHtml(s: string): string {
    if s == [] then [] else EscapeChar(s[0]) + EscapeHtml(s[1..])
  }

  function Sanitize(s: string): string {
    EscapeHtml(TrimRight(TrimLeft(s)))
  }

  predicate Escapable(c: char) {
    c == '<' || c == '>' || c == '&' || c == '\'' || c == '"'
  }

  /** Text that has nothing to trim and nothing to escape. */
  predicate Clean(s: string) {
    (s != [] ==> !IsSpace(s[0]) && !IsSpace(s[|s| - 1])) &&
    forall i :: 0 <= i < |s| ==> !Escapable(s[i])
  }

  /** Sanitising leaves a text alone exactly when it is clean; every safe_id is. */
  lemma SanitizeFixedPoint(s: string)
    ensures Sanitize(s) == s <==> Clean(s)
    ensures SafeId(s) ==> Sanitize(s) == s
  {
    var l := TrimLeft(s);
    var t := TrimRight(l);
    TrimEnds(s);
    EscapeGrows(t);
    EscapeEnds(t);
    if Sanitize(s) == s && s != [] {
      assert !IsSpace(s[0]) && !IsSpace(s[|s| - 1]);
    }
    if Clean(s) {
      assert t == s;
    }
    if SafeId(s) {
      assert forall i :: 0 <= i < |s| ==> SafeChar(s[i]);
      assert Clean(s);
    }
  }

  lemma TrimEnds(s: string)
    ensures var t := TrimRight(TrimLeft(s));
            t != [] ==> !IsSpace(t[0]) && !IsSpace(t[|t| - 1])
  {
    var l := TrimLeft(s);
    TrimLeftHead(s);
    TrimRightHead(l);
  }

  lemma {:induction false} TrimLeftHead(s: string)
    ensures var l := TrimLeft(s); l != [] ==> !IsSpace(l[0])
  {
    if s != [] && IsSpace(s[0]) { TrimLeftHead(s[1..]); }
  }

  lemma {:induction false} TrimRightHead(s: string)
    ensures var t := TrimRight(s);
            t != [] ==> !IsSpace(t[|t| - 1]) && s != [] && t[0] == s[0]
  {
    if s != [] && IsSpace(s[|s| - 1]) { TrimRightHead(s[..|s| - 1]); }
  }

  /** Escaping never shortens, and keeps the length only of text it leaves alone. */
  lemma {:induction false} EscapeGrows(s: string)
    ensures |EscapeHtml(s)| >= |s|
    ensures EscapeHtml(s) == s <==> forall i :: 0 <= i < |s| ==> !Escapable(s[i])
    ensures |EscapeHtml(s)| == |s| ==> EscapeHtml(s) == s
  {
    if s != [] {
      EscapeGrows(s[1..]);
      assert s == [s[0]] + s[1..];
      if !Escapable(s[0]) {
        assert EscapeHtml(s)[1..] == EscapeHtml(s[1..]);
        assert forall i :: 0 <= i < |s[1..]| ==> s[1..][i] == s[i + 1];
        if forall i :: 0 <= i < |s[1..]| ==> !Escapable(s[1..][i]) {
          forall i | 0 <= i < |s| ensures !Escapable(s[i]) {
            if i > 0 { assert s[i] == s[1..][i - 1]; }
          }
        }
      }
    }
  }

  lemma {:induction false} EscapeEnds(s: string)
    requires s != [] ==> !IsSpace(s[0]) && !IsSpace(s[|s| - 1])
    ensures var e := EscapeHtml(s);
            (e == [] <==> s == []) && (e != [] ==> !IsSpace(e[0]) && !IsSpace(e[|e| - 1]))
  {
    if s != [] {
      var e := EscapeHtml(s);
      assert e[0] == EscapeChar(s[0])[0];
      EscapeLast(s);
    }
  }

  lemma {:induction false} EscapeLast(s: string)
    requires s != []
    ensures var e := EscapeHtml(s); var c := EscapeChar(s[|s| - 1]);
            e != [] && e[|e| - 1] == c[|c| - 1]
  {
    var e, head, tail := EscapeHtml(s), EscapeChar(s[0]), EscapeHtml(s[1..]);
    assert e == head + tail;
    if |s| == 1 {
      assert tail == [];
    } else {
      EscapeLast(s[1..]);
      assert s[1..][|s| - 2] == s[|s| - 1];
      assert e[|e| - 1] == tail[|tail| - 1];
    }
  }

  // ---- sanitising can be undone ----

  predicate StartsWith(s: string, p: string) {
    |p| <= |s| && s[..|p|] == p
  }

  /** Reading escaped text: the five entities stand for their characters. */
  function Unescape(s: string): string {
    if s == [] then []
    else if StartsWith(s, "&lt;") then ['<'] + Unescape(s[4..])
    else if StartsWith(s, "&gt;") then ['>'] + Unescape(s[4..])
    else if StartsWith(s, "&amp;") then ['&'] + Unescape(s[5..])
    else if StartsWith(s, "&#39;") then ['\''] + Unescape(s[5..])
    else if StartsWith(s, "&#34;") then ['"'] + Unescape(s[5..])
    else [s[0]] + Unescape(s[1..])
  }

  lemma StartsAt(s: string, p: string, k: nat)
    ensures k < |p| && StartsWith(s, p) ==> k < |s| && s[k] == p[k]
  {
    if k < |p| && StartsWith(s, p) { assert s[..|p|][k] == s[k]; }
  }

  lemma PlainChar(c: char, rest: string)
    requires c != '&'
    ensures Unescape([c] + rest) == [c] + Unescape(rest)
  {
    var s := [c] + rest;
    StartsAt(s, "&lt;", 0);
    StartsAt(s, "&gt;", 0);
    StartsAt(s, "&amp;", 0);
    StartsAt(s, "&#39;", 0);
    StartsAt(s, "&#34;", 0);
    assert s[1..] == rest;
  }

  lemma UnescapeChar(c: char, rest: string)
    ensures Unescape(EscapeChar(c) + rest) == [c] + Unescape(rest)
  {
    var e := EscapeChar(c);
    var s := e + rest;
    if Escapable(c) {
      assert s[..|e|] == e && s[|e|..] == rest && s[1] == e[1] && s[3] == e[3];
      StartsAt(s, "&lt;", 1);
      StartsAt(s, "&gt;", 1);
      StartsAt(s, "&amp;", 1);
      StartsAt(s, "&#39;", 3);
    } else {
      PlainChar(c, rest);
    }
  }

  /** Escaping loses nothing. */
  lemma {:induction false} EscapeRoundTrip(s: string)
    ensures Unescape(EscapeHtml(s)) == s
  {
    if s != [] {
      EscapeRoundTrip(s[1..]);
      UnescapeChar(s[0], EscapeHtml(s[1..]));
      assert s == [s[0]] + s[1..];
    }
  }

  predicate AllSpace(s: string) {
    forall i :: 0 <= i < |s| ==> IsSpace(s[i])
  }

  lemma {:induction false} TrimLeftSplits(s: string) returns (a: string)
    ensures s == a + TrimLeft(s) && AllSpace(a)
  {
    if s != [] && IsSpace(s[0]) {
      a := TrimLeftSplits(s[1..]);
      a := [s[0]] + a;
      assert s == [s[0]] + s[1..];
    } else {
      a := [];
    }
  }

  lemma {:induction false} TrimRightSplits(s: string) returns (b: string)
    ensures s == TrimRight(s) + b && AllSpace(b)
  {
    if s != [] && IsSpace(s[|s| - 1]) {
      b := TrimRightSplits(s[..|s| - 1]);
      b := b + [s[|s| - 1]];
      assert s == s[..|s| - 1] + [s[|s| - 1]];
    } else {
      b := [];
    }
  }

  /** Sanitised text, unescaped, is the original without the white space around it, and nothing else is lost. */
  lemma SanitizeUndone(s: string) returns (a: string, b: string)
    ensures s == a + Unescape(Sanitize(s)) + b && AllSpace(a) && AllSpace(b)
    ensures var t := Unescape(Sanitize(s)); t != [] ==> !IsSpace(t[0]) && !IsSpace(t[|t| - 1])
  {
    a := TrimLeftSplits(s);
    b := TrimRightSplits(TrimLeft(s));
    EscapeRoundTrip(TrimRight(TrimLeft(s)));
    TrimEnds(s);
  }

  const LOWER := "abcdefghijklmnopqrstuvwxyz"
  const UPPER := "ABCDEFGHIJKLMNOPQRSTUVWXYZ"
  const DIGITS := "0123456789"

  lemma LowerAt(i: nat)
    requires i < 26
    ensures LOWER[i] == 'a' + i as char
  {
  }

  lemma UpperAt(i: nat)
    requires i < 26
    ensures UPPER[i] == 'A' + i as char
  {
  }

  lemma DigitAt(i: nat)
    requires i < 10
    ensures DIGITS[i] == '0' + i as char
  {
  }

  lemma LowerChars(c: char)
    ensures 'a' <= c <= 'z' <==> c in LOWER
  {
    if 'a' <= c <= 'z' { LowerAt((c - 'a') as nat); }
  }

  lemma UpperChars(c: char)
    ensures 'A' <= c <= 'Z' <==> c in UPPER
  {
    if 'A' <= c <= 'Z' { UpperAt((c - 'A') as nat); }
  }

  lemma DigitChars(c: char)
    ensures '0' <= c <= '9' <==> c in DIGITS
  {
    if '0' <= c <= '9' { DigitAt((c - '0') as nat); }
  }

  /** The characters of a safe_id are exactly the letters, the digits and three more. */
  lemma SafeAlphabet(c: char)
    ensures SafeChar(c) <==> c in LOWER || c in UPPER || c in DIGITS || c in ['_', '-', '.']
  {
    LowerChars(c);
    UpperChars(c);
    DigitChars(c);
  }
}
