/** The fixed-window rate limiter: Redis counters with expiry, and the middleware on top. */
module RateLimit {
  import opened Domain
  import opened Arith
  import Decimal

  datatype Rule = Rule(limit: int, window: nat)   // window in seconds

  /** A Redis counter; times are in milliseconds. */
  datatype Counter = Counter(count: nat, expiry: Option<nat>)

  type Counters = map<string, Counter>

  function WindowId(now: nat, window: nat): nat
    requires window > 0
  {
    now / 1000 / window
  }

  function RedisKey(key: string, id: nat): string {
    "ratelimit:" + key + ":" + Decimal.Digits(id)
  }

  function GroupKey(identifier: string, group: string): string {
    identifier + ":" + group
  }

  /** A Redis key is gone once the clock is past its expiry. */
  predicate Live(m: Counters, k: string, now: nat) {
    k in m && (m[k].expiry.Some? ==> now <= m[k].expiry.value)
  }

  /** INCR: an expired counter starts again. */
  function CountAfter(m: Counters, k: string, now: nat): nat {
    if Live(m, k, now) then m[k].count + 1 else 1
  }

  /** INCR, then EXPIRE on the first increment; whether EXPIRE worked is never looked at. */
  function Hit(m: Counters, k: string, now: nat, window: nat, expireOk: bool): Counters {
    var c := CountAfter(m, k, now);
    m[k := Counter(c, if c > 1 then m[k].expiry else if expireOk then Some(now + (window + 1) * 1000) else None)]
  }

  datatype Result = Result(allowed: bool, limit: int, remaining: int, resetAt: int)

  class RateLimitStore {
    var counters: Counters

    constructor ()
      ensures counters == map[]
    {
      counters := map[];
    }

    /** Allow, with the clock read and the increment at one instant. */
    method Allow(now: nat, key: string, limit: int, window: nat, expireOk: bool) returns (r: Result)
      requires window > 0
      modifies this
      ensures var k := RedisKey(key, WindowId(now, window));
              && k == "ratelimit:" + key + ":" + Decimal.FormatInt(now / 1000 / window)
              && counters == Hit(old(counters), k, now, window, expireOk)
              && k in counters && counters == old(counters)[k := counters[k]]
              && (var live := k in old(counters) && (old(counters)[k].expiry.Some? ==> now <= old(counters)[k].expiry.value);
                  if live then
                    counters[k].count == old(counters)[k].count + 1 &&
                    (old(counters)[k].count > 0 ==> counters[k].expiry == old(counters)[k].expiry)
                  else
                    counters[k] == Counter(1, if expireOk then Some(now + window * 1000 + 1000) else None))
              && (r.allowed <==> counters[k].count <= limit)
              && (r.allowed <==> CountAfter(old(counters), k, now) <= limit)
              && r.remaining == (if r.allowed then limit - CountAfter(old(counters), k, now) else 0)
      ensures r.limit == limit && r.resetAt == (WindowId(now, window) + 1) * window
      ensures now / 1000 < r.resetAt <= now / 1000 + window
    {
      var id := WindowId(now, window);
      var k := RedisKey(key, id);
      var count := CountAfter(counters, k, now);
      var kept := if count > 1 then counters[k].expiry else None;
      counters := counters[k := Counter(count, kept)];
      if count == 1 && expireOk {
        counters := counters[k := Counter(count, Some(now + (window + 1) * 1000))];
      }
      var resetAt := (id + 1) * window;
      assert id * window <= now / 1000 < id * window + window;
      var remaining := limit - count;
      if remaining < 0 { remaining := 0; }
      r := Result(count <= limit, limit, remaining, resetAt);
    }
  }

  /** The middleware: an unreachable store lets the request pass; a refusal says when to come back. */
  method Limit(store: RateLimitStore, reachable: bool, now: nat, later: nat, identifier: string, group: string,
               rule: Rule, expireOk: bool) returns (pass: bool, retryAfter: int)
    requires rule.window > 0
    modifies store
    ensures !reachable ==> pass && store.counters == old(store.counters)
    ensures reachable ==>
              var k := RedisKey(GroupKey(identifier, group), WindowId(now, rule.window));
              && (pass <==> CountAfter(old(store.counters), k, now) <= rule.limit)
              && store.counters == Hit(old(store.counters), k, now, rule.window, expireOk)
    ensures !pass ==> var wait := (WindowId(now, rule.window) + 1) * rule.window - later / 1000;
                      retryAfter == if wait < 1 then 1 else wait
    ensures !pass && later >= now ==> 1 <= retryAfter <= rule.window
  {
    retryAfter := 0;
    if !reachable { return true, 0; }
    var r := store.Allow(now, GroupKey(identifier, group), rule.limit, rule.window, expireOk);
    if !r.allowed {
      retryAfter := r.resetAt - later / 1000;
      if retryAfter < 1 { retryAfter := 1; }
    }
    pass := r.allowed;
  }

  // ---- keys ----

  predicate NoColon(s: string) {
    forall i :: 0 <= i < |s| ==> s[i] != ':'
  }

  /** Reading a text from its last colon: what follows it has none. */
  lemma LastColon(a: string, x: string, b: string, y: string)
    requires a + ":" + x == b + ":" + y && NoColon(x) && NoColon(y)
    ensures a == b && x == y
  {
    var s := a + ":" + x;
    assert s[|a|] == ':' && s[|b|] == ':';
    assert forall i :: |a| < i < |s| ==> s[i] == x[i - |a| - 1];
    assert forall i :: |b| < i < |s| ==> s[i] == y[i - |b| - 1];
    assert |a| == |b|;
    assert a == s[..|a|] == s[..|b|] == b;
    assert x == s[|a| + 1..] == y;
  }

  /** Distinct (identifier, group, window) never share a counter, whatever the identifier contains. */
  lemma KeysDistinct(i1: string, g1: string, v1: nat, i2: string, g2: string, v2: nat)
    requires NoColon(g1) && NoColon(g2)
    ensures RedisKey(GroupKey(i1, g1), v1) == RedisKey(GroupKey(i2, g2), v2) <==> i1 == i2 && g1 == g2 && v1 == v2
  {
    var k1, k2 := RedisKey(GroupKey(i1, g1), v1), RedisKey(GroupKey(i2, g2), v2);
    if k1 == k2 {
      var p := "ratelimit:";
      LastColon(p + GroupKey(i1, g1), Decimal.Digits(v1), p + GroupKey(i2, g2), Decimal.Digits(v2));
      Decimal.DigitsRoundTrip(v1);
      Decimal.DigitsRoundTrip(v2);
      assert GroupKey(i1, g1) == (p + GroupKey(i1, g1))[|p|..];
      assert GroupKey(i2, g2) == (p + GroupKey(i2, g2))[|p|..];
      LastColon(i1, g1, i2, g2);
    }
  }

  function DefaultRules(): (rules: map<string, Rule>)
    ensures forall g :: g in rules ==> NoColon(g) && rules[g].window > 0
  {
    map["payments" := Rule(100, 60), "payments_refund" := Rule(30, 60), "auth_login" := Rule(10, 60),
        "auth_register" := Rule(5, 3600), "dashboard" := Rule(60, 60), "wallets_topup" := Rule(20, 60)]
  }

  // ---- traces ----

  datatype Call = Call(now: nat, identifier: string, group: string, expireOk: bool)

  /** Calls in time order, each of a group with a rule. */
  ghost predicate Trace(rules: map<string, Rule>, calls: seq<Call>) {
    && (forall g :: g in rules ==> NoColon(g) && rules[g].window > 0)
    && (forall i :: 0 <= i < |calls| ==> calls[i].group in rules)
    && (forall i, j :: 0 <= i <= j < |calls| ==> calls[i].now <= calls[j].now)
  }

  function Window(rules: map<string, Rule>, c: Call): nat
    requires c.group in rules && rules[c.group].window > 0
  {
    WindowId(c.now, rules[c.group].window)
  }

  function CallKey(rules: map<string, Rule>, c: Call): string
    requires c.group in rules && rules[c.group].window > 0
  {
    RedisKey(GroupKey(c.identifier, c.group), Window(rules, c))
  }

  /** The store after a trace. */
  ghost function After(rules: map<string, Rule>, calls: seq<Call>): Counters
    requires Trace(rules, calls)
  {
    if calls == [] then map[]
    else
      var c := calls[|calls| - 1];
      Hit(After(rules, calls[..|calls| - 1]), CallKey(rules, c), c.now, rules[c.group].window, c.expireOk)
  }

  /** The answer to call number `i`. */
  ghost predicate Allowed(rules: map<string, Rule>, calls: seq<Call>, i: nat)
    requires Trace(rules, calls) && i < |calls|
  {
    CountAfter(After(rules, calls[..i]), CallKey(rules, calls[i]), calls[i].now) <= rules[calls[i].group].limit
  }

  predicate Same(rules: map<string, Rule>, c: Call, id: string, g: string, v: nat)
    requires c.group in rules && rules[c.group].window > 0
  {
    c.identifier == id && c.group == g && Window(rules, c) == v
  }

  /** How many calls of a (identifier, group, window) a trace has. */
  ghost function Seen(rules: map<string, Rule>, calls: seq<Call>, id: string, g: string, v: nat): nat
    requires Trace(rules, calls)
  {
    if calls == [] then 0
    else Seen(rules, calls[..|calls| - 1], id, g, v) + if Same(rules, calls[|calls| - 1], id, g, v) then 1 else 0
  }

  /** The counter of a triple is exact, and outlives its window. */
  ghost predicate Exact(m: Counters, seen: nat, k: string, v: nat, window: nat) {
    if seen == 0 then k !in m
    else k in m && m[k].count == seen && (m[k].expiry.Some? ==> m[k].expiry.value > (v + 1) * window * 1000)
  }

  lemma HitExact(m: Counters, seen: nat, k: string, v: nat, now: nat, window: nat, ok: bool)
    requires window > 0 && WindowId(now, window) == v && Exact(m, seen, k, v, window)
    ensures Exact(Hit(m, k, now, window, ok), seen + 1, k, v, window) && CountAfter(m, k, now) == seen + 1
  {
    var s := now / 1000;
    assert v * window <= s < v * window + window;
    assert (v + 1) * window * 1000 == v * window * 1000 + window * 1000;
    assert (window + 1) * 1000 == window * 1000 + 1000;
    assert v * window * 1000 <= s * 1000 <= now < s * 1000 + 1000;
  }

  /** Expiry never resets a live window: over every trace each counter is the number of calls it saw. */
  lemma {:induction false} CountersExact(rules: map<string, Rule>, calls: seq<Call>, id: string, g: string, v: nat)
    requires Trace(rules, calls) && g in rules
    ensures Exact(After(rules, calls), Seen(rules, calls, id, g, v), RedisKey(GroupKey(id, g), v), v, rules[g].window)
  {
    if calls != [] {
      var prev, c := calls[..|calls| - 1], calls[|calls| - 1];
      CountersExact(rules, prev, id, g, v);
      KeysDistinct(c.identifier, c.group, Window(rules, c), id, g, v);
      if Same(rules, c, id, g, v) {
        HitExact(After(rules, prev), Seen(rules, prev, id, g, v), CallKey(rules, c), v, c.now, rules[g].window, c.expireOk);
      }
    }
  }

  /** Exactly the first `limit` calls of a window are allowed. */
  lemma FirstLimitAllowed(rules: map<string, Rule>, calls: seq<Call>, i: nat)
    requires Trace(rules, calls) && i < |calls|
    ensures var c := calls[i];
            Allowed(rules, calls, i) <==>
              Seen(rules, calls[..i], c.identifier, c.group, Window(rules, c)) < rules[c.group].limit
  {
    var c, prev := calls[i], calls[..i];
    var v := Window(rules, c);
    CountersExact(rules, prev, c.identifier, c.group, v);
    HitExact(After(rules, prev), Seen(rules, prev, c.identifier, c.group, v), CallKey(rules, c), v, c.now,
             rules[c.group].window, c.expireOk);
  }

  /** How many calls of (identifier, group) were allowed in a window. */
  ghost function Granted(rules: map<string, Rule>, calls: seq<Call>, id: string, g: string, v: nat, n: nat): nat
    requires Trace(rules, calls) && n <= |calls|
  {
    if n == 0 then 0
    else Granted(rules, calls, id, g, v, n - 1) +
         if Same(rules, calls[n - 1], id, g, v) && Allowed(rules, calls, n - 1) then 1 else 0
  }

  lemma {:induction false} GrantedIsCapped(rules: map<string, Rule>, calls: seq<Call>, id: string, g: string, v: nat, n: nat)
    requires Trace(rules, calls) && n <= |calls| && g in rules && rules[g].limit >= 0
    ensures var seen := Seen(rules, calls[..n], id, g, v);
            Granted(rules, calls, id, g, v, n) == if seen <= rules[g].limit then seen else rules[g].limit
  {
    if n > 0 {
      GrantedIsCapped(rules, calls, id, g, v, n - 1);
      assert calls[..n][..n - 1] == calls[..n - 1];
      FirstLimitAllowed(rules, calls, n - 1);
    }
  }

  /** Allowed calls of (identifier, group) with `from <= now < until`. */
  ghost function GrantedInSpan(rules: map<string, Rule>, calls: seq<Call>, id: string, g: string, from: nat, until: nat, n: nat): nat
    requires Trace(rules, calls) && n <= |calls| && g in rules
  {
    if n == 0 then 0
    else
      var c := calls[n - 1];
      GrantedInSpan(rules, calls, id, g, from, until, n - 1) +
      if c.identifier == id && c.group == g && from <= c.now < until && Allowed(rules, calls, n - 1) then 1 else 0
  }

  /** Any span of one window length, wherever it starts, lets at most twice the limit through. */
  lemma {:induction false} SpanBound(rules: map<string, Rule>, calls: seq<Call>, id: string, g: string, from: nat)
    requires Trace(rules, calls) && g in rules && rules[g].limit >= 0
    ensures GrantedInSpan(rules, calls, id, g, from, from + 1000 * rules[g].window, |calls|) <= 2 * rules[g].limit
  {
    var v := WindowId(from, rules[g].window);
    SpanCovered(rules, calls, id, g, from, |calls|);
    GrantedIsCapped(rules, calls, id, g, v, |calls|);
    GrantedIsCapped(rules, calls, id, g, v + 1, |calls|);
  }

  lemma {:induction false} SpanCovered(rules: map<string, Rule>, calls: seq<Call>, id: string, g: string, from: nat, n: nat)
    requires Trace(rules, calls) && n <= |calls| && g in rules
    ensures var v := WindowId(from, rules[g].window);
            GrantedInSpan(rules, calls, id, g, from, from + 1000 * rules[g].window, n) <=
              Granted(rules, calls, id, g, v, n) + Granted(rules, calls, id, g, v + 1, n)
  {
    if n > 0 {
      SpanCovered(rules, calls, id, g, from, n - 1);
      var c, w := calls[n - 1], rules[g].window;
      if from <= c.now < from + 1000 * w { SpanWindows(from, c.now, w); }
    }
  }

  lemma SpanWindows(from: nat, now: nat, w: nat)
    requires w > 0 && from <= now < from + 1000 * w
    ensures WindowId(from, w) <= WindowId(now, w) <= WindowId(from, w) + 1
  {
    var a, b := from / 1000, now / 1000;
    assert a <= b <= a + w;
    DivMonotone(a, b, w);
    DivMonotone(b, a + w, w);
    assert (a / w + 1) * w == a / w * w + w;
    DivBounds(a, w);
    DivUnique(a + w, w, a / w + 1, a - a / w * w);
  }

  // ---- the production limits ----

  /** How many of the calls are of this identifier and group and fall into window number `v` of `window` seconds. */
  function CallsIn(calls: seq<Call>, id: string, g: string, window: nat, v: nat): nat
    requires window > 0
  {
    if calls == [] then 0
    else
      var c := calls[|calls| - 1];
      CallsIn(calls[..|calls| - 1], id, g, window, v) +
      if c.identifier == id && c.group == g && c.now / 1000 / window == v then 1 else 0
  }

  lemma {:induction false} SeenIsCallsIn(rules: map<string, Rule>, calls: seq<Call>, id: string, g: string, v: nat)
    requires Trace(rules, calls) && g in rules
    ensures Seen(rules, calls, id, g, v) == CallsIn(calls, id, g, rules[g].window, v)
  {
    if calls != [] { SeenIsCallsIn(rules, calls[..|calls| - 1], id, g, v); }
  }

  /** The limit of a group per window, and the window in seconds. */
  ghost predicate Allows(g: string, limit: nat, window: nat)
    requires window > 0
  {
    forall calls: seq<Call>, i: nat :: Trace(DefaultRules(), calls) && i < |calls| && calls[i].group == g ==>
      (Allowed(DefaultRules(), calls, i) <==>
         CallsIn(calls[..i], calls[i].identifier, g, window, calls[i].now / 1000 / window) < limit)
  }

  ghost predicate Bounds(g: string, most: nat, span: nat) {
    g in DefaultRules() &&
    forall calls: seq<Call>, id: string, from: nat, until: nat :: Trace(DefaultRules(), calls) && until == from + span ==>
      GrantedInSpan(DefaultRules(), calls, id, g, from, until, |calls|) <= most
  }

  lemma GroupAllows(g: string, limit: nat, window: nat)
    requires window > 0 && g in DefaultRules() && DefaultRules()[g] == Rule(limit, window)
    ensures Allows(g, limit, window) && Bounds(g, 2 * limit, 1000 * window)
  {
    var rules := DefaultRules();
    forall calls: seq<Call>, i: nat | Trace(rules, calls) && i < |calls| && calls[i].group == g
      ensures Allowed(rules, calls, i) <==>
              CallsIn(calls[..i], calls[i].identifier, g, window, calls[i].now / 1000 / window) < limit
    {
      FirstLimitAllowed(rules, calls, i);
      SeenIsCallsIn(rules, calls[..i], calls[i].identifier, g, Window(rules, calls[i]));
    }
    forall calls: seq<Call>, id: string, from: nat, until: nat | Trace(rules, calls) && until == from + 1000 * window
      ensures GrantedInSpan(rules, calls, id, g, from, until, |calls|) <= 2 * limit
    {
      SpanBound(rules, calls, id, g, from);
    }
  }

  /** What the default rules come to, group by group: of the calls of one identifier exactly the first so many of each whole
      minute, or hour, are allowed; and in any minute, or hour, at most twice as many. */
  lemma DefaultLimits()
    ensures Allows("payments", 100, 60) && Bounds("payments", 200, 60_000)
    ensures Allows("payments_refund", 30, 60) && Bounds("payments_refund", 60, 60_000)
    ensures Allows("auth_login", 10, 60) && Bounds("auth_login", 20, 60_000)
    ensures Allows("auth_register", 5, 3600) && Bounds("auth_register", 10, 3_600_000)
    ensures Allows("dashboard", 60, 60) && Bounds("dashboard", 120, 60_000)
    ensures Allows("wallets_topup", 20, 60) && Bounds("wallets_topup", 40, 60_000)
    ensures |DefaultRules()| == 6
  {
    GroupAllows("payments", 100, 60);
    GroupAllows("payments_refund", 30, 60);
    GroupAllows("auth_login", 10, 60);
    GroupAllows("auth_register", 5, 3600);
    GroupAllows("dashboard", 60, 60);
    GroupAllows("wallets_topup", 20, 60);
  }
}
