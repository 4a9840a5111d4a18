/** The deadline-bounded quote request of apps/web/src/PilotApp.tsx, with exact timers in whole milliseconds. */
module QuoteRetry {
  import opened Options

  const TOTAL_TIMEOUT_MS := 30000
  const RETRY_DELAY_MS := 450
  const MAX_ATTEMPTS := 3

  // What the server would answer to one attempt, and how long it takes to do so.
  datatype Reply = Ready | Refused(message: string)
  datatype Exchange = Exchange(durationMs: nat, reply: Reply)

  datatype Failure = Aborted | Failed(message: string) | DeadlineExceeded

  // attempts counts the requests sent; lastSentAt and finishedAt are measured from the start of the call.
  datatype Outcome = Outcome(ready: bool, error: Option<Failure>, attempts: nat, lastSentAt: int, finishedAt: int)

  function AttemptTimeout(remaining: int): int {
    var capped := if remaining < TOTAL_TIMEOUT_MS then remaining else TOTAL_TIMEOUT_MS;
    if capped < 250 then 250 else capped
  }

  /** The error of an attempt that got no quote: the reply came in time, or the abort timer fired first. */
  function FailureOf(e: Exchange, timeout: int): Option<Failure> {
    if e.durationMs >= timeout then Some(Aborted)
    else match e.reply
      case Ready => None
      case Refused(message) => Some(Failed(message))
  }

  function Elapsed(e: Exchange, timeout: int): int {
    if e.durationMs >= timeout then timeout else e.durationMs
  }

  predicate Retryable(retryable: string -> bool, f: Failure) {
    f.Aborted? || (f.Failed? && retryable(f.message))
  }

  /** The outcome from a given attempt on, entered `now` ms after the start. */
  function Request(exchange: nat -> Exchange, retryable: string -> bool, attempt: nat, now: int): Outcome
    requires 1 <= attempt <= MAX_ATTEMPTS
    decreases MAX_ATTEMPTS - attempt
  {
    var remaining := TOTAL_TIMEOUT_MS - now;
    if remaining <= 0 then Outcome(false, Some(DeadlineExceeded), attempt - 1, now, now)
    else
      var timeout := AttemptTimeout(remaining);
      var e := exchange(attempt);
      var later := now + Elapsed(e, timeout);
      var failure := FailureOf(e, timeout);
      if failure.None? then Outcome(true, None, attempt, now, later)
      else if attempt < MAX_ATTEMPTS && Retryable(retryable, failure.value)
              && TOTAL_TIMEOUT_MS - later > RETRY_DELAY_MS + 200 then
        Request(exchange, retryable, attempt + 1, later + RETRY_DELAY_MS)
      else Outcome(false, failure, attempt, now, later)
  }

  method RequestQuote(exchange: nat -> Exchange, retryable: string -> bool) returns (o: Outcome)
    ensures o == Request(exchange, retryable, 1, 0)
    ensures 1 <= o.attempts <= MAX_ATTEMPTS && 0 <= o.finishedAt < 30050
    ensures o.ready <==> o.error.None?
    ensures o.error != Some(DeadlineExceeded)
    ensures o.lastSentAt < TOTAL_TIMEOUT_MS - 200
  {
    hide Request;
    o := SendAttempts(exchange, retryable, 1, 0);
    FinishesInTime(exchange, retryable, 1, 0);
  }

  /** The attempt loop, from a given attempt and time on. */
  method SendAttempts(exchange: nat -> Exchange, retryable: string -> bool, first: nat, start: int) returns (o: Outcome)
    requires 1 <= first <= MAX_ATTEMPTS
    ensures o == Request(exchange, retryable, first, start)
  {
    hide AttemptTimeout, Elapsed, FailureOf, Retryable;
    var now := start;
    var finalError: Option<Failure> := None;
    var sent, sentAt := first - 1, start;
    var attempt := first;
    while attempt <= MAX_ATTEMPTS
      invariant first <= attempt <= MAX_ATTEMPTS && sent == attempt - 1
      invariant Request(exchange, retryable, first, start) == Request(exchange, retryable, attempt, now)
      decreases MAX_ATTEMPTS - attempt
    {
      var remainingBudget := TOTAL_TIMEOUT_MS - now;
      if remainingBudget <= 0 {
        finalError, sentAt := Some(DeadlineExceeded), now;
        break;
      }
      var timeout := AttemptTimeout(remainingBudget);
      var e := exchange(attempt);
      sent, sentAt := sent + 1, now;
      now := now + Elapsed(e, timeout);
      finalError := FailureOf(e, timeout);
      if finalError.None? { return Outcome(true, None, sent, sentAt, now); }
      if attempt < MAX_ATTEMPTS && Retryable(retryable, finalError.value) {
        if TOTAL_TIMEOUT_MS - now <= RETRY_DELAY_MS + 200 { break; }
        now := now + RETRY_DELAY_MS;
        attempt := attempt + 1;
        continue;
      }
      break;
    }
    o := Outcome(false, finalError, sent, sentAt, now);
  }

  lemma AttemptEnds(e: Exchange, timeout: int)
    requires timeout > 0
    ensures 0 <= Elapsed(e, timeout) <= timeout && FailureOf(e, timeout) != Some(DeadlineExceeded)
  {
  }

  /**
   * Entered with more than 200 ms left, the loop ends in time, sends nothing in the last 200 ms, and never takes its
   * deadline branch.
   */
  lemma {:induction false} FinishesInTime(exchange: nat -> Exchange, retryable: string -> bool, attempt: nat, now: int)
    requires 1 <= attempt <= MAX_ATTEMPTS && 0 <= now < TOTAL_TIMEOUT_MS - 200
    ensures var o := Request(exchange, retryable, attempt, now);
            && attempt <= o.attempts <= MAX_ATTEMPTS && now <= o.finishedAt < 30050
            && (o.ready <==> o.error.None?) && o.error != Some(DeadlineExceeded)
            && o.lastSentAt < TOTAL_TIMEOUT_MS - 200
    decreases MAX_ATTEMPTS - attempt
  {
    hide Retryable, Elapsed, FailureOf;
    var timeout := AttemptTimeout(TOTAL_TIMEOUT_MS - now);
    var e := exchange(attempt);
    var later := now + Elapsed(e, timeout);
    AttemptEnds(e, timeout);
    if attempt < MAX_ATTEMPTS && TOTAL_TIMEOUT_MS - later > RETRY_DELAY_MS + 200 {
      FinishesInTime(exchange, retryable, attempt + 1, later + RETRY_DELAY_MS);
    }
  }

  /**
   * An aborted attempt is never followed by another: the abort timer leaves less than a retry needs, so that
   * aborts count as retryable changes nothing.
   */
  lemma AbortIsFinal(exchange: nat -> Exchange, retryable: string -> bool, attempt: nat, now: int)
    requires 1 <= attempt <= MAX_ATTEMPTS && 0 <= now < TOTAL_TIMEOUT_MS
    requires exchange(attempt).durationMs >= AttemptTimeout(TOTAL_TIMEOUT_MS - now)
    ensures var o := Request(exchange, retryable, attempt, now);
            o.attempts == attempt && o.error == Some(Aborted) && o.finishedAt >= TOTAL_TIMEOUT_MS
  {
  }

  // A refusal after 29,349 ms, and nothing in time after that.
  function LateRefusal(attempt: nat): Exchange {
    if attempt == 1 then Exchange(29349, Refused("price_unavailable")) else Exchange(60000, Ready)
  }

  /** The bound is reached to the millisecond: a late refusal leaves room for a retry that is aborted at 30,049 ms. */
  lemma LatestFinish()
    ensures Request(LateRefusal, _ => true, 1, 0) == Outcome(false, Some(Aborted), 2, 29799, 30049)
  {
    assert Request(LateRefusal, _ => true, 2, 29799) == Outcome(false, Some(Aborted), 2, 29799, 30049);
  }

  // ---------------------------------------------------------------------------------------------
  // What a call does, attempt by attempt.

  // When an attempt is sent, when it is over, and why it failed, if it did.
  datatype Try = Try(sentAt: int, endedAt: int, failure: Option<Failure>)

  /** Aborted when its time is up, at least 250 ms and at most what is left of 30 s; otherwise as the server answers. */
  predicate TriedOnce(e: Exchange, t: Try) {
    var left := 30000 - t.sentAt;
    var timeout := if left < 250 then 250 else if left > 30000 then 30000 else left;
    if e.durationMs < timeout then
      && t.endedAt == t.sentAt + e.durationMs
      && t.failure == match e.reply case Ready => None case Refused(message) => Some(Failed(message))
    else t.endedAt == t.sentAt + timeout && t.failure == Some(Aborted)
  }

  /** A failed attempt that may be repeated: an abort, or a refusal that is retryable. */
  predicate MayRepeat(retryable: string -> bool, t: Try) {
    match t.failure
    case Some(Aborted) => true
    case Some(Failed(message)) => retryable(message)
    case _ => false
  }

  /** Another attempt follows: one is left, this one may be repeated, and more than 650 ms remain. */
  predicate Repeats(retryable: string -> bool, t: Try, number: nat) {
    number < 3 && MayRepeat(retryable, t) && 30000 - t.endedAt > 650
  }

  /** The attempts of a call from number `first` on: each follows 450 ms after one that repeats, the last does not. */
  ghost predicate TriesOf(exchange: nat -> Exchange, retryable: string -> bool, first: nat, tries: seq<Try>) {
    && |tries| > 0
    && (forall i :: 0 <= i < |tries| ==> TriedOnce(exchange(first + i), tries[i]))
    && (forall i :: 0 <= i < |tries| - 1 ==>
          Repeats(retryable, tries[i], first + i) && tries[i + 1].sentAt == tries[i].endedAt + 450)
    && !Repeats(retryable, tries[|tries| - 1], first + |tries| - 1)
  }

  /** What the call reports of its last attempt. */
  predicate Reported(o: Outcome, first: nat, tries: seq<Try>)
    requires |tries| > 0
  {
    var last := tries[|tries| - 1];
    && o.attempts == first + |tries| - 1
    && o.lastSentAt == last.sentAt && o.finishedAt == last.endedAt
    && o.error == last.failure && (o.ready <==> last.failure.None?)
  }

  lemma AttemptIsTry(e: Exchange, now: int)
    ensures var timeout := AttemptTimeout(30000 - now);
            TriedOnce(e, Try(now, now + Elapsed(e, timeout), FailureOf(e, timeout)))
  {
  }

  lemma OneMoreTry(exchange: nat -> Exchange, retryable: string -> bool, first: nat, t: Try, rest: seq<Try>)
    requires TriedOnce(exchange(first), t) && Repeats(retryable, t, first)
    requires TriesOf(exchange, retryable, first + 1, rest) && rest[0].sentAt == t.endedAt + 450
    ensures TriesOf(exchange, retryable, first, [t] + rest)
  {
    hide TriedOnce, Repeats;
    var tries := [t] + rest;
    forall i | 0 <= i < |tries|
      ensures TriedOnce(exchange(first + i), tries[i])
    {
      if i > 0 {
        assert TriedOnce(exchange(first + 1 + (i - 1)), rest[i - 1]);
      }
    }
    forall i | 0 <= i < |tries| - 1
      ensures Repeats(retryable, tries[i], first + i) && tries[i + 1].sentAt == tries[i].endedAt + 450
    {
      if i > 0 {
        assert Repeats(retryable, rest[i - 1], first + 1 + (i - 1));
      }
    }
  }

  /** Entered in time, the call makes exactly the attempts described and reports the last of them. */
  lemma {:induction false} RequestTries(exchange: nat -> Exchange, retryable: string -> bool, attempt: nat, now: int)
    returns (tries: seq<Try>)
    requires 1 <= attempt <= MAX_ATTEMPTS && now < TOTAL_TIMEOUT_MS
    ensures TriesOf(exchange, retryable, attempt, tries) && tries[0].sentAt == now
    ensures Reported(Request(exchange, retryable, attempt, now), attempt, tries)
    decreases MAX_ATTEMPTS - attempt
  {
    hide TriedOnce, Elapsed, FailureOf;
    var e, timeout := exchange(attempt), AttemptTimeout(TOTAL_TIMEOUT_MS - now);
    var t := Try(now, now + Elapsed(e, timeout), FailureOf(e, timeout));
    AttemptIsTry(e, now);
    if Repeats(retryable, t, attempt) {
      var rest := RequestTries(exchange, retryable, attempt + 1, t.endedAt + 450);
      OneMoreTry(exchange, retryable, attempt, t, rest);
      tries := [t] + rest;
    } else {
      tries := [t];
    }
  }
}
