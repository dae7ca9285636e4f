/** How long a subscriber sleeps between failed attempts to subscribe again. Times are in milliseconds. */
module Backoff {

  const LEAST_DELAY := 100
  const GREATEST_DELAY := 30000
  const FACTOR := 2

  /** What one round of the subscriber's loop meets: it was unsubscribed, the close channel is closed,
      the gate was passed but there is no connection, consuming failed, or it worked. */
  datatype Round = Unsubscribed | Closed | NotConnected | Refused | Consumed

  predicate Ends(r: Round) {
    r.Unsubscribed? || r.Closed?
  }

  function Power(k: nat): (p: nat)
    ensures p >= 1
  {
    if k == 0 then 1 else 2 * Power(k - 1)
  }

  function Min(a: nat, b: nat): nat {
    if a < b then a else b
  }

  /** Failures in a row at the end of the rounds; rounds without a connection do not count. */
  function Failures(rounds: seq<Round>): nat {
    if rounds == [] then 0
    else
      var before := rounds[..|rounds| - 1];
      match rounds[|rounds| - 1]
      case Consumed => 0
      case Refused => Failures(before) + 1
      case _ => Failures(before)
  }

  /** The sleeps of the rounds in closed form: after k failures in a row the next failure sleeps
      for 100 * 2^k, at most for 30 seconds. */
  function Sleeps(rounds: seq<Round>): seq<nat> {
    if rounds == [] then []
    else
      var before := rounds[..|rounds| - 1];
      if rounds[|rounds| - 1].Refused? then
        Sleeps(before) + [Min(LEAST_DELAY * Power(Failures(before)), GREATEST_DELAY)]
      else
        Sleeps(before)
  }

  /** The delay that is kept after k failures in a row: once it exceeds the greatest delay it is cut
      down at the next failure, and doubled again. */
  function Stored(k: nat): nat {
    if LEAST_DELAY * Power(k) < FACTOR * GREATEST_DELAY then LEAST_DELAY * Power(k) else FACTOR * GREATEST_DELAY
  }

  lemma StoredNext(k: nat)
    ensures Min(Stored(k), GREATEST_DELAY) == Min(LEAST_DELAY * Power(k), GREATEST_DELAY)
    ensures Stored(k + 1) == FACTOR * Min(Stored(k), GREATEST_DELAY)
  {
    if LEAST_DELAY * Power(k) > GREATEST_DELAY {
      FirstAbove(k);
    }
  }

  lemma {:induction false} PowerGrows(j: nat, k: nat)
    requires j <= k
    ensures Power(j) <= Power(k)
  {
    if j < k {
      PowerGrows(j, k - 1);
    }
  }

  lemma SmallPowers()
    ensures Power(8) == 256 && Power(9) == 512 && Power(10) == 1024
  {
    assert Power(2) == 2 * Power(1) && Power(1) == 2 * Power(0);
    assert Power(4) == 2 * Power(3) && Power(3) == 2 * Power(2);
    assert Power(6) == 2 * Power(5) && Power(5) == 2 * Power(4);
    assert Power(8) == 2 * Power(7) && Power(7) == 2 * Power(6);
    assert Power(10) == 2 * Power(9) && Power(9) == 2 * Power(8);
  }

  /** Doubling from 100 jumps over 30000 to 51200 and then to 102400. */
  lemma FirstAbove(k: nat)
    ensures k <= 8 ==> LEAST_DELAY * Power(k) <= 25600
    ensures k == 9 ==> LEAST_DELAY * Power(k) == 51200
    ensures k >= 10 ==> LEAST_DELAY * Power(k) >= 102400
  {
    SmallPowers();
    if k <= 8 {
      PowerGrows(k, 8);
    } else if k >= 10 {
      PowerGrows(10, k);
    }
  }

  /** The subscriber's loop, round by round until it ends or the rounds are over. */
  method Resubscribe(rounds: seq<Round>) returns (sleeps: seq<nat>, ran: nat, delay: nat)
    ensures ran <= |rounds| && (forall i | 0 <= i < ran :: !Ends(rounds[i])) && (ran < |rounds| ==> Ends(rounds[ran]))
    ensures sleeps == Sleeps(rounds[..ran])
    ensures delay == Stored(Failures(rounds[..ran]))
  {
    delay := LEAST_DELAY;
    sleeps, ran := [], 0;
    while ran < |rounds|
      invariant ran <= |rounds| && forall i | 0 <= i < ran :: !Ends(rounds[i])
      invariant sleeps == Sleeps(rounds[..ran])
      invariant delay == Stored(Failures(rounds[..ran]))
    {
      assert rounds[..ran + 1][..ran] == rounds[..ran];
      match rounds[ran] {
        case Unsubscribed => return;
        case Closed => return;
        case NotConnected =>
        case Consumed =>
          delay := LEAST_DELAY;
        case Refused =>
          StoredNext(Failures(rounds[..ran]));
          if delay > GREATEST_DELAY {
            delay := GREATEST_DELAY;
          }
          sleeps := sleeps + [delay];
          delay := delay * FACTOR;
      }
      ran := ran + 1;
    }
  }

  /** Every sleep lies between 100 milliseconds and 30 seconds. */
  lemma {:induction false} SleepsInRange(rounds: seq<Round>)
    ensures forall s | s in Sleeps(rounds) :: 100 <= s <= 30000
  {
    if rounds != [] {
      SleepsInRange(rounds[..|rounds| - 1]);
    }
  }

  /** The delay that is kept never exceeds one minute. */
  lemma StoredWithinAMinute(rounds: seq<Round>)
    ensures 100 <= Stored(Failures(rounds)) <= 60000
  {
  }

  function Refusals(n: nat): seq<Round> {
    if n == 0 then [] else Refusals(n - 1) + [Refused]
  }

  function SleepAfter(k: nat): nat {
    Min(LEAST_DELAY * Power(k), GREATEST_DELAY)
  }

  function FirstSleeps(n: nat): seq<nat> {
    if n == 0 then [] else FirstSleeps(n - 1) + [SleepAfter(n - 1)]
  }

  lemma {:induction false} FirstSleepsAre(n: nat, k: nat)
    requires k < n
    ensures |FirstSleeps(n)| == n && FirstSleeps(n)[k] == Min(100 * Power(k), 30000)
  {
    FirstSleepsLength(n);
    FirstSleepsLength(n - 1);
    if k < n - 1 {
      FirstSleepsAre(n - 1, k);
    }
  }

  lemma {:induction false} FirstSleepsLength(n: nat)
    ensures |FirstSleeps(n)| == n
  {
    if n > 0 {
      FirstSleepsLength(n - 1);
    }
  }

  lemma OneMoreRefusal(rounds: seq<Round>)
    ensures Failures(rounds + [Refused]) == Failures(rounds) + 1
    ensures Sleeps(rounds + [Refused]) == Sleeps(rounds) + [SleepAfter(Failures(rounds))]
  {
    assert (rounds + [Refused])[..|rounds|] == rounds;
  }

  lemma SuccessClears(rounds: seq<Round>)
    ensures Failures(rounds + [Consumed]) == 0 && Sleeps(rounds + [Consumed]) == Sleeps(rounds)
  {
    assert (rounds + [Consumed])[..|rounds|] == rounds;
  }

  /** A success and then n failures. */
  function Streak(rounds: seq<Round>, n: nat): seq<Round> {
    if n == 0 then rounds + [Consumed] else Streak(rounds, n - 1) + [Refused]
  }

  lemma {:induction false} StreakIsRefusals(rounds: seq<Round>, n: nat)
    ensures Streak(rounds, n) == rounds + [Consumed] + Refusals(n)
  {
    if n > 0 {
      StreakIsRefusals(rounds, n - 1);
    }
  }

  lemma {:induction false} StreakSleeps(rounds: seq<Round>, n: nat)
    ensures Failures(Streak(rounds, n)) == n && Sleeps(Streak(rounds, n)) == Sleeps(rounds) + FirstSleeps(n)
  {
    if n == 0 {
      SuccessClears(rounds);
    } else {
      StreakSleeps(rounds, n - 1);
      OneMoreRefusal(Streak(rounds, n - 1));
    }
  }

  /** After a success, n failures in a row sleep for 100 * 2^k each, k = 0 .. n - 1, cut at 30 seconds
      (`FirstSleepsAre`). */
  lemma FailuresInARow(rounds: seq<Round>, n: nat)
    ensures Failures(rounds + [Consumed] + Refusals(n)) == n
    ensures Sleeps(rounds + [Consumed] + Refusals(n)) == Sleeps(rounds) + FirstSleeps(n)
  {
    StreakIsRefusals(rounds, n);
    StreakSleeps(rounds, n);
  }
}
