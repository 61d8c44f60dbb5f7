/** Webhook delivery: the retry loop over one delivery record. */
module Webhook {
  import opened Domain
  import Decimal

  datatype Status = Pending | Delivered | Failed

  /** How one attempt ends. */
  datatype Outcome = BadRequest(error: string) | Unreachable(error: string) | Answer(code: int)

  predicate Accepted(o: Outcome) {
    o.Answer? && 200 <= o.code < 300
  }

  function ErrorText(o: Outcome): string {
    match o
    case BadRequest(e) => e
    case Unreachable(e) => e
    case Answer(code) => "HTTP " + Decimal.FormatInt(code)
  }

  /** The error of a failed attempt in words: the error itself, or the status code in decimal. */
  ghost function Says(o: Outcome): (text: string)
    ensures o.BadRequest? || o.Unreachable? ==> text == o.error
    ensures o.Answer? ==> text == "HTTP " + Decimal.FormatInt(o.code)
  {
    ErrorText(o)
  }

  /** What is persisted of the delivery record. */
  datatype Record = Record(attempt: nat, status: Status, httpStatus: Option<int>, lastError: Option<string>,
                           nextRetryAt: Option<int>)

  /** The status code of the latest answer among the first `n` attempts. */
  function LastCode(send: nat -> Outcome, n: nat): Option<int> {
    if n == 0 then None else if send(n - 1).Answer? then Some(send(n - 1).code) else LastCode(send, n - 1)
  }

  /** When the retry is due that was last announced: nothing is announced after the last attempt,
      nor when the request could not even be built. */
  function Due(intervals: seq<nat>, send: nat -> Outcome, clock: nat -> int, n: nat): Option<int> {
    if n == 0 then None
    else if n <= |intervals| && !send(n - 1).BadRequest? then Some(clock(n - 1) + intervals[n - 1])
    else Due(intervals, send, clock, n - 1)
  }

  /** What a pending record announces was announced by the latest attempt that could announce anything. */
  lemma {:induction false} DueOrigin(intervals: seq<nat>, send: nat -> Outcome, clock: nat -> int, n: nat) returns (m: nat)
    ensures m <= n && m <= |intervals| && (m > 0 ==> !send(m - 1).BadRequest?)
    ensures Due(intervals, send, clock, n) == if m == 0 then None else Some(clock(m - 1) + intervals[m - 1])
    ensures forall k :: m <= k < n ==> k >= |intervals| || send(k).BadRequest?
  {
    if n == 0 || (n <= |intervals| && !send(n - 1).BadRequest?) {
      m := n;
    } else {
      m := DueOrigin(intervals, send, clock, n - 1);
    }
  }

  /** The record after `n` attempts, none of them accepted. */
  function PendingRecord(intervals: seq<nat>, send: nat -> Outcome, clock: nat -> int, n: nat): Record {
    Record(n, Pending, LastCode(send, n), if n == 0 then None else Some(ErrorText(send(n - 1))),
           Due(intervals, send, clock, n))
  }

  /** The first records persisted are those of the failed attempts, in order. */
  ghost predicate PendingUpTo(persisted: seq<Record>, intervals: seq<nat>, send: nat -> Outcome, clock: nat -> int, n: nat) {
    n <= |persisted| && forall k :: 0 <= k < n ==> persisted[k] == PendingRecord(intervals, send, clock, k)
  }

  class Delivery {
    var attempt: nat
    var status: Status
    var httpStatus: Option<int>
    var lastError: Option<string>
    var nextRetryAt: Option<int>
    var persisted: seq<Record>
    var slept: seq<nat>

    ghost function Snapshot(): Record
      reads this
    {
      Record(attempt, status, httpStatus, lastError, nextRetryAt)
    }

    /** The initial log entry. */
    constructor ()
      ensures attempt == 0 && status == Pending && nextRetryAt == None && slept == []
      ensures persisted == [Snapshot()]
    {
      attempt, status, httpStatus, lastError, nextRetryAt := 0, Pending, None, None, None;
      persisted := [Record(0, Pending, None, None, None)];
      slept := [];
    }

    method PersistLog()
      modifies this`persisted
      ensures persisted == old(persisted) + [Snapshot()]
    {
      persisted := persisted + [Record(attempt, status, httpStatus, lastError, nextRetryAt)];
    }

    /** One attempt, after the sleep: the record is updated and persisted. */
    method Attempt(n: nat, intervals: seq<nat>, outcome: Outcome, now: int) returns (done: bool)
      requires n <= |intervals| && status == Pending
      modifies this`attempt, this`status, this`httpStatus, this`lastError, this`nextRetryAt, this`persisted
      ensures done == Accepted(outcome) && attempt == n + 1
      ensures persisted == old(persisted) + [Snapshot()]
      ensures done ==> status == Delivered && lastError == None && nextRetryAt == None
      ensures httpStatus == if outcome.Answer? then Some(outcome.code) else old(httpStatus)
      ensures !done ==> status == Pending && lastError == Some(ErrorText(outcome))
      ensures !done && n < |intervals| && !outcome.BadRequest? ==> nextRetryAt == Some(now + intervals[n])
      ensures !done && (n == |intervals| || outcome.BadRequest?) ==> nextRetryAt == old(nextRetryAt)
    {
      attempt := n + 1;
      done := false;
      match outcome
      case BadRequest(e) =>
        lastError := Some(e);
        PersistLog();
      case Unreachable(e) =>
        lastError := Some(e);
        if n < |intervals| { nextRetryAt := Some(now + intervals[n]); }
        PersistLog();
      case Answer(code) =>
        httpStatus := Some(code);
        if 200 <= code < 300 {
          status, lastError, nextRetryAt := Delivered, None, None;
          PersistLog();
          return true;
        }
        lastError := Some("HTTP " + Decimal.FormatInt(code));
        if n < |intervals| { nextRetryAt := Some(now + intervals[n]); }
        PersistLog();
    }

    /** The same, as a step of the delivery: the record was that of `n` failed attempts. */
    method Retry(n: nat, intervals: seq<nat>, send: nat -> Outcome, clock: nat -> int) returns (done: bool)
      requires n <= |intervals| && Snapshot() == PendingRecord(intervals, send, clock, n)
      requires |persisted| == n + 1 && PendingUpTo(persisted, intervals, send, clock, n + 1)
      requires slept == if n == 0 then [] else intervals[..n - 1]
      modifies this
      ensures done == Accepted(send(n)) && slept == intervals[..n]
      ensures |persisted| == n + 2 && persisted[n + 1] == Snapshot() && PendingUpTo(persisted, intervals, send, clock, n + 1)
      ensures Snapshot() == if done then Record(n + 1, Delivered, Some(send(n).code), None, None)
                            else PendingRecord(intervals, send, clock, n + 1)
    {
      if n > 0 {
        slept := slept + [intervals[n - 1]];
      }
      done := Attempt(n, intervals, send(n), clock(n));
    }

    /** The whole delivery, for any intervals and any outcomes. It stops at the first 2xx or after one attempt more
        than there are intervals; it slept the intervals between attempts; the record went through PENDING states
        that count the attempts into one final state: DELIVERED exactly if some attempt was accepted. */
    method DeliverWithRetries(intervals: seq<nat>, send: nat -> Outcome, clock: nat -> int)
      requires attempt == 0 && slept == [] && persisted == [Snapshot()] && Snapshot() == PendingRecord(intervals, send, clock, 0)
      modifies this
      ensures 1 <= attempt <= |intervals| + 1
      ensures forall i :: 0 <= i < attempt - 1 ==> !Accepted(send(i))
      ensures Accepted(send(attempt - 1)) || attempt == |intervals| + 1
      ensures slept == intervals[..attempt - 1]
      ensures status == (if Accepted(send(attempt - 1)) then Delivered else Failed)
      ensures status == Delivered <==> exists i :: 0 <= i <= |intervals| && Accepted(send(i))
      ensures status == Delivered <==> exists i :: 0 <= i <= |intervals| && send(i).Answer? && 200 <= send(i).code <= 299
      ensures forall i :: 0 <= i < attempt - 1 && send(i).Answer? ==> !(200 <= send(i).code <= 299)
      ensures forall k :: 0 <= k < |persisted| - 1 ==> persisted[k].attempt == k && persisted[k].status == Pending
      ensures forall k :: 0 < k < |persisted| - 1 ==> persisted[k].lastError == Some(Says(send(k - 1)))
      ensures status == Failed ==> lastError == Some(Says(send(attempt - 1)))
      ensures nextRetryAt == None && httpStatus == LastCode(send, attempt)
      ensures lastError == if status == Delivered then None else Some(ErrorText(send(attempt - 1)))
      ensures |persisted| == attempt + (if status == Delivered then 1 else 2) && persisted[|persisted| - 1] == Snapshot()
      ensures PendingUpTo(persisted, intervals, send, clock, |persisted| - 1)
    {
      var n := 0;
      while n <= |intervals|
        invariant 0 <= n <= |intervals| + 1 && Snapshot() == PendingRecord(intervals, send, clock, n)
        invariant forall i :: 0 <= i < n ==> !Accepted(send(i))
        invariant slept == if n == 0 then [] else intervals[..n - 1]
        invariant |persisted| == n + 1 && PendingUpTo(persisted, intervals, send, clock, n + 1)
      {
        var done := Retry(n, intervals, send, clock);
        if done { return; }
        n := n + 1;
      }
      status := Failed;
      nextRetryAt := None;
      PersistLog();
    }

    /** The production schedule: six attempts, one more than its five intervals, within 1095 seconds of sleep. */
    method Deliver(send: nat -> Outcome, clock: nat -> int)
      requires attempt == 0 && slept == [] && persisted == [Snapshot()]
      requires Snapshot() == PendingRecord(RETRY_INTERVALS, send, clock, 0)
      modifies this
      ensures 1 <= attempt <= 6 && slept == [15, 60, 120, 300, 600][..attempt - 1] && Total(slept) <= 1095
      ensures status == Delivered <==> exists i :: 0 <= i <= 5 && send(i).Answer? && 200 <= send(i).code <= 299
    {
      DeliverWithRetries(RETRY_INTERVALS, send, clock);
      PrefixTotal(RETRY_INTERVALS, attempt - 1);
    }
  }

  /** In seconds. */
  const RETRY_INTERVALS: seq<nat> := [15, 60, 120, 300, 600]

  function Total(xs: seq<nat>): nat {
    if xs == [] then 0 else xs[0] + Total(xs[1..])
  }

  lemma {:induction false} PrefixTotal(xs: seq<nat>, n: nat)
    requires n <= |xs|
    ensures Total(xs[..n]) <= Total(xs)
  {
    if n > 0 {
      assert xs[..n][1..] == xs[1..][..n - 1];
      PrefixTotal(xs[1..], n - 1);
    }
  }

  /** The status code in a pending record is that of the latest attempt that was answered at all. */
  lemma {:induction false} LastCodeOrigin(send: nat -> Outcome, n: nat) returns (m: nat)
    ensures m <= n && (m > 0 ==> send(m - 1).Answer?)
    ensures LastCode(send, n) == if m == 0 then None else Some(send(m - 1).code)
    ensures forall k :: m <= k < n ==> !send(k).Answer?
  {
    if n == 0 || send(n - 1).Answer? {
      m := n;
    } else {
      m := LastCodeOrigin(send, n - 1);
    }
  }
}
