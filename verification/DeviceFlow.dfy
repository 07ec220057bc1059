/** Device-code login: polling the token endpoint (section 3.5 of RFC 8628). */
module DeviceFlow {

  /** What the token endpoint answers. Refused stands for every other ApiError code, Failed for any other throw. */
  datatype Reply = Tokens(token: string) | Pending | SlowDown | Refused(code: string) | Failed(what: string)

  /** Poll i as the environment gives it: how much longer than asked the sleep before it lasts, how long the answer
      takes. */
  datatype Attempt = Attempt(late: nat, took: nat, reply: Reply)

  type Environment = nat -> Attempt

  datatype Outcome = LoggedIn(token: string) | Error(code: string) | Threw(what: string) | Expired

  predicate KeepsPolling(r: Reply) { r.Pending? || r.SlowDown? }

  function Final(r: Reply): Outcome
    requires !KeepsPolling(r)
  {
    match r
    case Tokens(token) => LoggedIn(token)
    case Refused(code) => Error(code)
    case Failed(what) => Threw(what)
  }

  /** slow_down answers among the first n. */
  function SlowDowns(env: Environment, n: nat): nat {
    if n == 0 then 0 else SlowDowns(env, n - 1) + if env(n - 1).reply.SlowDown? then 1 else 0
  }

  /** A timer set for less than a millisecond runs for one. */
  function Slept(ms: int): int { if ms < 1 then 1 else ms }

  /** When the expiry check before poll n is made. */
  function CheckedAt(env: Environment, start: int, seconds: int, n: nat): int
    decreases n, 0
  {
    if n == 0 then start else SentAt(env, start, seconds, n - 1) + env(n - 1).took
  }

  /** When poll n is sent: after a sleep of the interval, which each slow_down has made 5 s longer. */
  function SentAt(env: Environment, start: int, seconds: int, n: nat): int
    decreases n, 1
  {
    CheckedAt(env, start, seconds, n) + Slept(seconds * 1000 + 5000 * SlowDowns(env, n)) + env(n).late
  }

  /** The polls that pollForTokens sends, and how it ends. */
  ghost predicate Polls(env: Environment, start: int, expiresIn: int, seconds: int, n: nat, outcome: Outcome) {
    var expiry := start + expiresIn * 1000;
    && (forall i :: 0 <= i < n ==> CheckedAt(env, start, seconds, i) < expiry)
    && (forall i :: 0 <= i < n - 1 ==> KeepsPolling(env(i).reply))
    && if n > 0 && !KeepsPolling(env(n - 1).reply) then outcome == Final(env(n - 1).reply)
       else outcome == Expired && CheckedAt(env, start, seconds, n) >= expiry
  }

  method PollForTokens(env: Environment, start: int, expiresIn: int, seconds: int)
      returns (outcome: Outcome, polls: nat)
    ensures Polls(env, start, expiresIn, seconds, polls, outcome)
  {
    var now := start;
    var expiryMs := start + expiresIn * 1000;
    var interval := seconds * 1000;
    polls := 0;
    while now < expiryMs
      invariant now == CheckedAt(env, start, seconds, polls)
      invariant interval == seconds * 1000 + 5000 * SlowDowns(env, polls)
      invariant forall i :: 0 <= i < polls ==> CheckedAt(env, start, seconds, i) < expiryMs
      invariant forall i :: 0 <= i < polls ==> KeepsPolling(env(i).reply)
      decreases expiryMs - now
    {
      var attempt := env(polls);
      now := now + Slept(interval) + attempt.late;
      polls := polls + 1;
      now := now + attempt.took;
      match attempt.reply
      case Pending =>
      case SlowDown => interval := interval + 5000;
      case _ =>
        outcome := Final(attempt.reply);
        return;
    }
    outcome := Expired;
  }

  /** There is one such number of polls. */
  lemma PollsAreDetermined(env: Environment, start: int, expiresIn: int, seconds: int,
                           m: nat, n: nat, a: Outcome, b: Outcome)
    requires Polls(env, start, expiresIn, seconds, m, a) && Polls(env, start, expiresIn, seconds, n, b)
    ensures m == n && a == b
  {
    if m < n { NotBeforeTheEnd(env, start, expiresIn, seconds, m, n, a, b); }
    if n < m { NotBeforeTheEnd(env, start, expiresIn, seconds, n, m, b, a); }
  }

  lemma NotBeforeTheEnd(env: Environment, start: int, expiresIn: int, seconds: int,
                        m: nat, n: nat, a: Outcome, b: Outcome)
    requires Polls(env, start, expiresIn, seconds, m, a) && Polls(env, start, expiresIn, seconds, n, b)
    ensures m >= n
  {
    // What the second run says of poll m and of the check after it rules out that the first run ended there.
    var checked := CheckedAt(env, start, seconds, m);
    var last := if m > 0 then env(m - 1) else env(0);
  }

  lemma {:induction false} ChecksAreSpaced(env: Environment, start: int, seconds: int, n: nat)
    ensures CheckedAt(env, start, seconds, n) >= start + n * (seconds * 1000)
    ensures CheckedAt(env, start, seconds, n) >= start + n
    decreases n
  {
    if n == 0 {
    } else {
      ChecksAreSpaced(env, start, seconds, n - 1);
      assert n * (seconds * 1000) == (n - 1) * (seconds * 1000) + seconds * 1000;
    }
  }

  /** n polls fit only if n - 1 intervals are shorter than the code's lifetime; and there are never more polls than
      milliseconds in it. */
  lemma PollsAreBounded(env: Environment, start: int, expiresIn: int, seconds: int, n: nat, outcome: Outcome)
    requires Polls(env, start, expiresIn, seconds, n, outcome) && n > 0
    ensures (n - 1) * seconds < expiresIn && n <= expiresIn * 1000
  {
    ChecksAreSpaced(env, start, seconds, n - 1);
    InSeconds(n - 1, seconds, expiresIn);
  }

  lemma InSeconds(n: nat, seconds: int, expiresIn: int)
    requires n * (seconds * 1000) < expiresIn * 1000
    ensures n * seconds < expiresIn
  {
    assert n * (seconds * 1000) == (n * seconds) * 1000;
  }

  function SlowOnes(env: Environment, n: nat): set<int> {
    set i | 0 <= i < n && env(i).reply == SlowDown
  }

  lemma {:induction false} SlowDownsAre(env: Environment, n: nat)
    ensures SlowDowns(env, n) == |SlowOnes(env, n)|
  {
    if n == 0 {
    } else {
      SlowDownsAre(env, n - 1);
      assert SlowOnes(env, n) == SlowOnes(env, n - 1) + if env(n - 1).reply == SlowDown then {n - 1} else {};
    }
  }

  function Max(a: int, b: int): int { if a < b then b else a }

  /** The first poll is sent one interval after the start, and each later one follows the answer to the one before by
      the interval and 5 s for every slow_down received so far, that answer included; no interval is under 1 ms. */
  lemma SentAtIs(env: Environment, start: int, seconds: int, i: nat)
    ensures SentAt(env, start, seconds, 0) == start + Max(1, seconds * 1000) + env(0).late
    ensures SentAt(env, start, seconds, i + 1)
         == SentAt(env, start, seconds, i) + env(i).took
            + Max(1, seconds * 1000 + 5000 * |SlowOnes(env, i + 1)|) + env(i + 1).late
  {
    SlowDownsAre(env, i + 1);
  }

  /** authorization_pending and slow_down are answered with another poll, unless the code has expired; every other
      answer ends the login as it says. */
  lemma OutcomeIs(env: Environment, start: int, expiresIn: int, seconds: int, n: nat, outcome: Outcome)
    requires Polls(env, start, expiresIn, seconds, n, outcome)
    ensures forall i :: 0 <= i < n - 1 ==> env(i).reply in {Pending, SlowDown}
    ensures match outcome
            case LoggedIn(token) => n > 0 && env(n - 1).reply == Tokens(token)
            case Error(code) => n > 0 && env(n - 1).reply == Refused(code)
            case Threw(what) => n > 0 && env(n - 1).reply == Failed(what)
            case Expired =>
              && (n > 0 ==> env(n - 1).reply in {Pending, SlowDown})
              && (n == 0 ==> expiresIn <= 0)
              && (n > 0 ==> SentAt(env, start, seconds, n - 1) + env(n - 1).took >= start + expiresIn * 1000)
    ensures forall i :: 0 <= i < n - 1 ==> SentAt(env, start, seconds, i) + env(i).took < start + expiresIn * 1000
  {
    assert CheckedAt(env, start, seconds, 0) == start;
    forall i | 0 <= i < n - 1 ensures SentAt(env, start, seconds, i) + env(i).took < start + expiresIn * 1000 {
      assert CheckedAt(env, start, seconds, i + 1) < start + expiresIn * 1000;
    }
  }

  /** A poll follows the answer to the one before it by the interval and 5 s for every slow_down received so far, that
      answer included. Every poll but the last is sent before the code expires; the last may be sent after. */
  lemma PollsKeepTheirDistance(env: Environment, start: int, expiresIn: int, seconds: int,
                               n: nat, outcome: Outcome, i: nat)
    requires Polls(env, start, expiresIn, seconds, n, outcome) && i + 1 < n
    ensures SentAt(env, start, seconds, i + 1) - SentAt(env, start, seconds, i)
         >= seconds * 1000 + 5000 * |SlowOnes(env, i + 1)| + env(i).took
    ensures SentAt(env, start, seconds, i) < start + expiresIn * 1000
  {
    SlowDownsAre(env, i + 1);
    assert CheckedAt(env, start, seconds, i + 1) < start + expiresIn * 1000;
  }

  /** The sleep comes after the check: a poll is sent once the code has expired exactly when it is the last one and the
      lifetime left at its check is no longer than its sleep. */
  lemma LatePollIff(env: Environment, start: int, expiresIn: int, seconds: int, n: nat, outcome: Outcome, i: nat)
    requires Polls(env, start, expiresIn, seconds, n, outcome) && i < n
    ensures var left := start + expiresIn * 1000 - CheckedAt(env, start, seconds, i);
            && left > 0
            && (SentAt(env, start, seconds, i) >= start + expiresIn * 1000 <==>
                  i == n - 1 && left <= Slept(seconds * 1000 + 5000 * SlowDowns(env, i)) + env(i).late)
  {
    if i + 1 < n { PollsKeepTheirDistance(env, start, expiresIn, seconds, n, outcome, i); }
  }

  /** That happens, whatever the interval, when the code's lifetime is no longer than it. */
  lemma LastPollMayBeLate(start: int, expiresIn: int, seconds: int, token: string)
    requires 0 < expiresIn <= seconds
    ensures exists env: Environment ::
              && Polls(env, start, expiresIn, seconds, 1, LoggedIn(token))
              && SentAt(env, start, seconds, 0) >= start + expiresIn * 1000
  {
    var env: Environment := (i: nat) => Attempt(0, 0, Tokens(token));
    assert CheckedAt(env, start, seconds, 0) == start;
    assert Polls(env, start, expiresIn, seconds, 1, LoggedIn(token));
  }
}
