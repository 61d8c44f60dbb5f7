/** Replay protection: the timestamp window and the one-time nonces of the HMAC middleware. */
module Nonce {
  import opened Domain
  import Keys

  // ---- the timestamp window ----

  const MAX_DRIFT := 60

  /** A float64 that an int64 converts to: exact up to 2^53, and no smaller than that beyond. */
  ghost predicate Converts(x: int, f: real) {
    if -0x20_0000_0000_0000 <= x <= 0x20_0000_0000_0000 then f == x as real
    else f >= 9007199254740992.0 || f <= -9007199254740992.0
  }

  function Abs(f: real): real {
    if f < 0.0 then -f else f
  }

  /** The comparison the middleware makes, on the converted 64-bit difference. */
  predicate Fresh(f: real) {
    !(Abs(f) > MAX_DRIFT as real)
  }

  predicate Close(now: int, ts: int) {
    -MAX_DRIFT <= now - ts <= MAX_DRIFT
  }

  /** For every timestamp the test admits exactly |now - ts| <= 60, despite wrap-around and rounding,
      as long as the clock itself is at least 60 seconds away from the ends of int64. */
  lemma DriftExact(now: int, ts: int, f: real)
    requires InInt64(ts) && MIN_INT64 + MAX_DRIFT <= now <= MAX_INT64 - MAX_DRIFT
    requires Converts(Wrap64(now - ts), f)
    ensures Fresh(f) <==> Close(now, ts)
  {
    var d := now - ts;
    if d > MAX_INT64 {
      Wrapped(d, -1);
    } else if d < MIN_INT64 {
      Wrapped(d, 1);
    }
  }

  lemma Wrapped(d: int, k: int)
    requires InInt64(d + k * TWO_64)
    ensures Wrap64(d) == d + k * TWO_64
  {
    Wrap64Shift(d, k);
  }

  /** The condition on the clock is exact: at every other instant some timestamp fools the test. */
  lemma DriftNeedsClock(now: int) returns (ts: int)
    requires InInt64(now) && !(MIN_INT64 + MAX_DRIFT <= now <= MAX_INT64 - MAX_DRIFT)
    ensures InInt64(ts) && !Close(now, ts) && forall f :: Converts(Wrap64(now - ts), f) ==> Fresh(f)
  {
    if now > MAX_INT64 - MAX_DRIFT {
      ts := MIN_INT64;
      Wrapped(now - ts, -1);
    } else {
      ts := MAX_INT64;
      Wrapped(now - ts, 1);
    }
  }

  // ---- the nonce store ----

  const TTL := 120_000   // milliseconds

  type Store = map<string, int>   // key to expiry

  function NonceKey(merchant: Uuid, nonce: string): string {
    "nonce:" + merchant + ":" + nonce
  }

  /** A Redis key is gone once the clock is past its expiry. */
  predicate Live(m: Store, k: string, now: int) {
    k in m && now <= m[k]
  }

  class NonceStore {
    var keys: Store

    constructor ()
      ensures keys == map[]
    {
      keys := map[];
    }

    /** SET NX with a time to live: true exactly when the nonce was not there. */
    method CheckAndSet(now: int, merchant: Uuid, nonce: string, ttl: int) returns (isNew: bool)
      modifies this
      ensures var k := NonceKey(merchant, nonce);
              && (isNew <==> !Live(old(keys), k, now))
              && keys == if isNew then old(keys)[k := now + ttl] else old(keys)
    {
      var k := NonceKey(merchant, nonce);
      isNew := !Live(keys, k, now);
      if isNew {
        keys := keys[k := now + ttl];
      }
    }
  }

  // ---- requests ----

  /** One authenticated request: its clock reading in milliseconds, what it carries, whether its merchant is found
      and active, how the signature check will go, and whether the nonce store answers. */
  datatype Attempt = Attempt(now: int, merchant: Uuid, nonce: string, ts: int, known: bool, signed: bool, answered: bool)

  function Seconds(ms: int): int {
    ms / 1000
  }

  predicate Claims(m: Store, a: Attempt) {
    Close(Seconds(a.now), a.ts) && a.known && a.answered && !Live(m, NonceKey(a.merchant, a.nonce), a.now)
  }

  function After(m: Store, a: Attempt): Store {
    if Claims(m, a) then m[NonceKey(a.merchant, a.nonce) := a.now + TTL] else m
  }

  /** Whether the middleware lets the request through: a store that does not answer refuses nobody. */
  predicate Passes(m: Store, a: Attempt) {
    Close(Seconds(a.now), a.ts) && a.known && (a.answered ==> Claims(m, a)) && a.signed
  }

  /** The middleware: timestamp, then merchant, then nonce, then signature. The nonce of a known merchant is spent
      even when the signature is bad. */
  method Authenticate(store: NonceStore, a: Attempt, f: real) returns (pass: bool)
    requires InInt64(a.ts) && 0 <= a.now && Seconds(a.now) <= MAX_INT64 - MAX_DRIFT
    requires Converts(Wrap64(Seconds(a.now) - a.ts), f)
    modifies store
    ensures pass <==> Passes(old(store.keys), a)
    ensures store.keys == After(old(store.keys), a)
    ensures var k := "nonce:" + a.merchant + ":" + a.nonce;
            var used := k in old(store.keys) && a.now <= old(store.keys)[k];
            var near := -60 <= a.now / 1000 - a.ts <= 60;
            && (pass <==> near && a.known && a.signed && (a.answered ==> !used))
            && store.keys == if near && a.known && a.answered && !used then old(store.keys)[k := a.now + 120_000]
                             else old(store.keys)
  {
    DriftExact(Seconds(a.now), a.ts, f);
    if Abs(f) > MAX_DRIFT as real { return false; }
    if !a.known { return false; }
    if a.answered {
      var isNew := store.CheckAndSet(a.now, a.merchant, a.nonce, TTL);
      if !isNew { return false; }
    }
    pass := a.signed;
  }

  // ---- traces ----

  /** Attempts in time order; the store need not answer. */
  predicate InOrder(tr: seq<Attempt>) {
    forall i, j :: 0 <= i <= j < |tr| ==> tr[i].now <= tr[j].now
  }

  /** Over every trace, silent stores included, what is accepted is in the window, of a known merchant and signed, and its
      nonce was not claimed within 120 seconds before; and whatever is all that, is accepted. */
  lemma AcceptedExactly(tr: seq<Attempt>, j: nat)
    requires InOrder(tr) && j < |tr|
    ensures var a := tr[j];
            Passes(StoreAt(tr, j), a) <==>
              && -60 <= a.now / 1000 - a.ts <= 60 && a.known && a.signed
              && (a.answered ==> forall i :: 0 <= i < j && SameNonce(tr[i], a) && Spends(tr, i) ==> a.now > tr[i].now + 120_000)
  {
    var a := tr[j];
    var k := NonceKey(a.merchant, a.nonce);
    LiveExactly(tr, j, a);
  }

  predicate SameNonce(a: Attempt, b: Attempt) {
    a.merchant == b.merchant && a.nonce == b.nonce
  }

  /** Attempt `i` spends its nonce. */
  ghost predicate Spends(tr: seq<Attempt>, i: nat)
    requires i < |tr|
  {
    Claims(StoreAt(tr, i), tr[i])
  }

  /** A nonce is live exactly if an earlier attempt spent it, and not more than its time to live ago. */
  lemma {:induction false} LiveExactly(tr: seq<Attempt>, n: nat, a: Attempt)
    requires InOrder(tr) && n <= |tr| && forall i :: 0 <= i < n ==> tr[i].now <= a.now
    ensures Live(StoreAt(tr, n), NonceKey(a.merchant, a.nonce), a.now) <==>
            exists i :: 0 <= i < n && SameNonce(tr[i], a) && Spends(tr, i) && a.now <= tr[i].now + 120_000
  {
    if n > 0 {
      var m, b := n - 1, tr[n - 1];
      LiveExactly(tr, m, a);
      NonceKeyInjective(b.merchant, b.nonce, a.merchant, a.nonce);
      if Spends(tr, m) && SameNonce(b, a) {
        assert StoreAt(tr, n)[NonceKey(a.merchant, a.nonce)] == b.now + TTL;
      }
    }
  }

  predicate Trace(tr: seq<Attempt>) {
    && (forall i :: 0 <= i < |tr| ==> tr[i].answered)
    && (forall i, j :: 0 <= i <= j < |tr| ==> tr[i].now <= tr[j].now)
  }

  ghost function StoreAt(tr: seq<Attempt>, n: nat): Store
    requires n <= |tr|
  {
    if n == 0 then map[] else After(StoreAt(tr, n - 1), tr[n - 1])
  }

  /** Keys of distinct (merchant, nonce) never collide. */
  lemma NonceKeyInjective(m1: Uuid, n1: string, m2: Uuid, n2: string)
    ensures NonceKey(m1, n1) == NonceKey(m2, n2) <==> m1 == m2 && n1 == n2
  {
    var p := "nonce:";
    assert NonceKey(m1, n1) == p + Keys.PaymentKey(m1, n1) && NonceKey(m2, n2) == p + Keys.PaymentKey(m2, n2);
    Keys.SplitPrefix(p, Keys.PaymentKey(m1, n1), p, Keys.PaymentKey(m2, n2));
    Keys.PaymentKeyInjective(m1, n1, m2, n2);
  }

  /** A claimed key keeps an expiry at least a full time to live after its claim. */
  lemma {:induction false} ExpiryStands(tr: seq<Attempt>, i: nat, n: nat)
    requires Trace(tr) && i < n <= |tr| && Claims(StoreAt(tr, i), tr[i])
    ensures var k := NonceKey(tr[i].merchant, tr[i].nonce);
            k in StoreAt(tr, n) && StoreAt(tr, n)[k] >= tr[i].now + TTL
  {
    if n > i + 1 {
      ExpiryStands(tr, i, n - 1);
      assert tr[i].now <= tr[n - 1].now;
    }
  }

  /** Two claims of one (merchant, nonce) are more than 120 seconds apart, over every trace. */
  lemma ClaimsApart(tr: seq<Attempt>, i: nat, j: nat)
    requires Trace(tr) && i < j < |tr|
    requires tr[i].merchant == tr[j].merchant && tr[i].nonce == tr[j].nonce
    requires Claims(StoreAt(tr, i), tr[i]) && Claims(StoreAt(tr, j), tr[j])
    ensures tr[j].now > tr[i].now + TTL
  {
    ExpiryStands(tr, i, j);
  }

  /** Accepted at the far edge of the window: 60 seconds ahead of the whole-second clock, and not in its last millisecond. */
  predicate AtTheEdge(now: int, ts: int) {
    ts >= Seconds(now) + 60 && now % 1000 <= 998
  }

  /** A request accepted anywhere but at that edge is never accepted again, however often it is replayed. */
  lemma NoReplay(tr: seq<Attempt>, i: nat, j: nat)
    requires Trace(tr) && i < j < |tr|
    requires tr[i].merchant == tr[j].merchant && tr[i].nonce == tr[j].nonce && tr[i].ts == tr[j].ts
    requires Passes(StoreAt(tr, i), tr[i]) && !AtTheEdge(tr[i].now, tr[i].ts)
    ensures !Passes(StoreAt(tr, j), tr[j])
  {
    if Passes(StoreAt(tr, j), tr[j]) { ClaimsApart(tr, i, j); }
  }

  lemma {:induction false} StoreOfPrefix(tr: seq<Attempt>, more: seq<Attempt>, n: nat)
    requires n <= |tr|
    ensures StoreAt(tr + more, n) == StoreAt(tr, n)
  {
    if n > 0 { StoreOfPrefix(tr, more, n - 1); }
  }

  /** The condition is exact: whatever is accepted at the edge, in any trace, passes again when it is replayed
      just after its nonce has expired. */
  lemma ReplayAtTheEdge(tr: seq<Attempt>)
    requires Trace(tr) && tr != []
    requires var a := tr[|tr| - 1]; Passes(StoreAt(tr, |tr| - 1), a) && AtTheEdge(a.now, a.ts)
    ensures var a := tr[|tr| - 1]; var tr' := tr + [a.(now := a.now + TTL + 1)];
            Trace(tr') && Passes(StoreAt(tr', |tr|), tr'[|tr|])
  {
    var n, a := |tr| - 1, tr[|tr| - 1];
    var replay := a.(now := a.now + TTL + 1);
    StoreOfPrefix(tr, [replay], |tr|);
    assert StoreAt(tr, |tr|) == StoreAt(tr, n)[NonceKey(a.merchant, a.nonce) := a.now + TTL];
  }
}
