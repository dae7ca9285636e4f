/** Exactly when the rate bound on wrong passwords holds: as long as the failure counter cannot
    outgrow its column within the time looked at, or the account is too long to log in with. */
module LockoutExact {
  import opened Results
  import opened IdentityModel
  import opened Utf8
  import opened Sessions
  import opened SessionSafety
  import opened DirectoryInvariants
  import opened TableSafety
  import opened Lockout
  import TenantConfig

  /** A login with some wrong password for the account. */
  function Guess(db: Db, id: nat): Step
    requires id in db.users
  {
    var wrong := if db.users[id].password == "x" then "y" else "x";
    StepLogin(LoginRequest(db.users[id].account, wrong, false), None, 0, 0)
  }

  function Guesses(guess: Step, count: nat): seq<Step> {
    if count == 0 then [] else [guess] + Guesses(guess, count - 1)
  }

  /** An account that a login request can carry: it may have thirty bytes there, while an account is
      admitted with thirty characters. */
  predicate Enterable(db: Db, id: nat) {
    id in db.users && ByteLength(db.users[id].account) <= ACCOUNT_LENGTH
  }

  predicate Open(s: State, id: nat, n: TenantConfig.pos, r: int)
    requires id in s.db.users
  {
    Reopens(FailureCount(s.db.users[id]), FailedAt(s.db.users[id]), s.now, n, r) == s.now
  }

  /** While the account is open, a guess is looked at. */
  lemma GuessIsLookedAt(site: Site, s: State, id: nat, n: TenantConfig.pos, r: int)
    requires Consistent(site, s.db) && Enterable(s.db, id) && r > 0
    requires RestrictionOf(s.db, id) == Success(TenantConfig.Limit(n, r)) && Open(s, id, n, r)
    ensures WrongPassword(site, s, Guess(s.db, id), id) && !Resets(site, s, Guess(s.db, id), id)
  {
    AccountFinds(s.db, id);
    assert FailureRecorded(s.db.users[id]);
    assert CheckLoginRestricted(s.db, s.db.users[id], s.now).Pass?;
    var guess := Guess(s.db, id);
    ByteLengthBounds(guess.req.password);
    assert ValidateLogin(s.db, guess.req, s.now) == Failure(IncorrectPassword);
  }

  /** With the counter at the end of its column, guesses leave everything as it is and go on for ever. */
  lemma {:induction false} FullCounterNeverRestricts(site: Site, s: State, id: nat, n: TenantConfig.pos, r: int, many: nat)
    requires Consistent(site, s.db) && Enterable(s.db, id) && r > 0
    requires RestrictionOf(s.db, id) == Success(TenantConfig.Limit(n, r)) && Open(s, id, n, r)
    requires FailureCount(s.db.users[id]) == site.counterMax
    ensures var steps := Guesses(Guess(s.db, id), many);
            && Run(site, s, steps) == s && WrongPasswords(site, s, steps, id) == many
            && Undisturbed(site, s, steps, id, n, r)
    decreases many
  {
    if many > 0 {
      var guess := Guess(s.db, id);
      GuessIsLookedAt(site, s, id, n, r);
      WrongPasswordEffect(site, s, guess, id, n, r);
      FullCounterNeverRestricts(site, s, id, n, r, many - 1);
      assert Guesses(guess, many)[1..] == Guesses(guess, many - 1);
    }
  }

  /** How long until the account opens. */
  function Wait(s: State, id: nat, n: TenantConfig.pos, r: int): (seconds: nat)
    requires id in s.db.users
  {
    var row := s.db.users[id];
    Reopens(FailureCount(row), FailedAt(row), s.now, n, r) - s.now
  }

  lemma WaitOpens(site: Site, s: State, id: nat, n: TenantConfig.pos, r: int, end: int)
    requires id in s.db.users && r > 0
    ensures var t := Next(site, s, StepTick(Wait(s, id, n, r)));
            && t.db == s.db && Open(t, id, n, r)
            && AllowanceOf(t.db.users[id], t.now, n, r, end) == AllowanceOf(s.db.users[id], s.now, n, r, end)
            && (AllowanceOf(s.db.users[id], s.now, n, r, end) > 0 ==> t.now <= end)
  {
  }

  lemma Prepend(site: Site, s: State, step: Step, rest: seq<Step>, id: nat, n: TenantConfig.pos, r: int)
    requires id in s.db.users && RestrictionOf(s.db, id) == Success(TenantConfig.Limit(n, r))
    requires !Resets(site, s, step, id) && Undisturbed(site, Next(site, s, step), rest, id, n, r)
    ensures Undisturbed(site, s, [step] + rest, id, n, r)
    ensures Run(site, s, [step] + rest) == Run(site, Next(site, s, step), rest)
    ensures WrongPasswords(site, s, [step] + rest, id) >= WrongPasswords(site, Next(site, s, step), rest, id)
  {
    assert ([step] + rest)[1..] == rest;
  }

  /** The tables after one more recorded failure. */
  function Counted(s: State, id: nat): State
    requires id in s.db.users
  {
    var row := s.db.users[id];
    s.(db := s.db.(users := s.db.users[id := row.(failedCount := Some(FailureCount(row) + 1), failedAt := Some(s.now))]))
  }

  lemma CountedRow(s: State, id: nat, n: TenantConfig.pos, r: int, end: int)
    requires Enterable(s.db, id) && r > 0 && s.now <= end && Open(s, id, n, r)
    ensures var t := Counted(s, id);
            && Enterable(t.db, id) && RestrictionOf(t.db, id) == RestrictionOf(s.db, id)
            && FailureCount(t.db.users[id]) == FailureCount(s.db.users[id]) + 1
            && AllowanceOf(t.db.users[id], t.now, n, r, end) == AllowanceOf(s.db.users[id], s.now, n, r, end) - 1
  {
    AllowanceUsed(FailureCount(s.db.users[id]), FailedAt(s.db.users[id]), s.now, n, r, end);
  }

  /** A guess when there is still room in the column moves the counter on and uses up the allowance. */
  lemma GuessMovesOn(site: Site, s: State, id: nat, n: TenantConfig.pos, r: int, end: int)
    requires Consistent(site, s.db) && Enterable(s.db, id) && r > 0 && s.now <= end
    requires RestrictionOf(s.db, id) == Success(TenantConfig.Limit(n, r)) && Open(s, id, n, r)
    requires FailureCount(s.db.users[id]) < site.counterMax
    ensures var t := Next(site, s, Guess(s.db, id));
            && Enterable(t.db, id) && t.now == s.now
            && RestrictionOf(t.db, id) == RestrictionOf(s.db, id) && !Resets(site, s, Guess(s.db, id), id)
            && FailureCount(t.db.users[id]) == FailureCount(s.db.users[id]) + 1
            && AllowanceOf(t.db.users[id], t.now, n, r, end) == AllowanceOf(s.db.users[id], s.now, n, r, end) - 1
  {
    GuessIsLookedAt(site, s, id, n, r);
    WrongPasswordEffect(site, s, Guess(s.db, id), id, n, r);
    CountedRow(s, id, n, r, end);
  }

  /** When the allowance takes the counter beyond its column, some undisturbed run within the time
      looks at any number of wrong passwords. */
  lemma {:induction false} Overrun(site: Site, s: State, id: nat, n: TenantConfig.pos, r: int, end: int, many: nat)
    returns (steps: seq<Step>)
    requires Consistent(site, s.db) && Enterable(s.db, id) && r > 0
    requires RestrictionOf(s.db, id) == Success(TenantConfig.Limit(n, r))
    requires FailureCount(s.db.users[id]) <= site.counterMax
    requires FailureCount(s.db.users[id]) + AllowanceOf(s.db.users[id], s.now, n, r, end) > site.counterMax
    ensures Undisturbed(site, s, steps, id, n, r) && Run(site, s, steps).now <= end
    ensures WrongPasswords(site, s, steps, id) >= many
    decreases site.counterMax - FailureCount(s.db.users[id]), 1
  {
    var wait := StepTick(Wait(s, id, n, r));
    WaitOpens(site, s, id, n, r, end);
    var rest := OverrunOpen(site, Next(site, s, wait), id, n, r, end, many);
    Prepend(site, s, wait, rest, id, n, r);
    steps := [wait] + rest;
  }

  lemma {:induction false} OverrunOpen(site: Site, s: State, id: nat, n: TenantConfig.pos, r: int, end: int, many: nat)
    returns (steps: seq<Step>)
    requires Consistent(site, s.db) && Enterable(s.db, id) && r > 0 && s.now <= end
    requires RestrictionOf(s.db, id) == Success(TenantConfig.Limit(n, r)) && Open(s, id, n, r)
    requires FailureCount(s.db.users[id]) <= site.counterMax
    requires FailureCount(s.db.users[id]) + AllowanceOf(s.db.users[id], s.now, n, r, end) > site.counterMax
    ensures Undisturbed(site, s, steps, id, n, r) && Run(site, s, steps).now <= end
    ensures WrongPasswords(site, s, steps, id) >= many
    decreases site.counterMax - FailureCount(s.db.users[id]), 0
  {
    var guess := Guess(s.db, id);
    if FailureCount(s.db.users[id]) == site.counterMax {
      FullCounterNeverRestricts(site, s, id, n, r, many);
      steps := Guesses(guess, many);
    } else {
      GuessMovesOn(site, s, id, n, r, end);
      NextKeepsConsistent(site, s, guess);
      var further := Overrun(site, Next(site, s, guess), id, n, r, end, many);
      Prepend(site, s, guess, further, id, n, r);
      steps := [guess] + further;
    }
  }

  ghost predicate Bounded(site: Site, s: State, id: nat, n: TenantConfig.pos, r: int, end: int, bound: int) {
    forall steps | Undisturbed(site, s, steps, id, n, r) && Run(site, s, steps).now <= end ::
      WrongPasswords(site, s, steps, id) <= bound
  }

  lemma LongAccountIsRefused(site: Site, s: State, step: Step, id: nat)
    requires id in s.db.users && !Enterable(s.db, id)
    ensures !WrongPassword(site, s, step, id) && !LogsIn(site, s, step, id)
  {
    if step.StepLogin? && FindByAccount(s.db, step.req.account).Some? {
      FoundAccount(s.db, step.req.account);
      LoginIsAllOrNothing(site, s, step.req, step.ip, step.magic, step.signature);
    }
  }

  /** No password is looked at under an account that is too long for a login request. */
  lemma {:induction false} LongAccountsAreNeverTried(site: Site, s: State, steps: seq<Step>, id: nat,
                                                     n: TenantConfig.pos, r: int)
    requires Consistent(site, s.db) && id in s.db.users && !Enterable(s.db, id)
    requires Undisturbed(site, s, steps, id, n, r)
    ensures WrongPasswords(site, s, steps, id) == 0
    decreases |steps|
  {
    if steps != [] {
      LongAccountIsRefused(site, s, steps[0], id);
      OtherStepsKeepCounter(site, s, steps[0], id);
      NextKeepsConsistent(site, s, steps[0]);
      LongAccountsAreNeverTried(site, Next(site, s, steps[0]), steps[1..], id, n, r);
    }
  }

  /** The rate bound holds for all undisturbed runs up to `end` exactly when the account is too long to
      log in with, or the counter, and what may be added to it until then, fits the column. */
  lemma BoundedIffCounterFits(site: Site, s: State, id: nat, n: TenantConfig.pos, r: int, end: int)
    requires Consistent(site, s.db) && id in s.db.users && r > 0
    requires RestrictionOf(s.db, id) == Success(TenantConfig.Limit(n, r))
    requires FailureCount(s.db.users[id]) <= site.counterMax
    ensures Bounded(site, s, id, n, r, end, RateBound(n, r, end - s.now))
            <==> ByteLength(s.db.users[id].account) > ACCOUNT_LENGTH
                 || FailureCount(s.db.users[id]) + AllowanceOf(s.db.users[id], s.now, n, r, end) <= site.counterMax
  {
    var bound := RateBound(n, r, end - s.now);
    if !Enterable(s.db, id) {
      forall steps | Undisturbed(site, s, steps, id, n, r) && Run(site, s, steps).now <= end
        ensures WrongPasswords(site, s, steps, id) <= bound
      {
        LongAccountsAreNeverTried(site, s, steps, id, n, r);
      }
    } else if FailureCount(s.db.users[id]) + AllowanceOf(s.db.users[id], s.now, n, r, end) <= site.counterMax {
      FittingCounterIsBounded(site, s, id, n, r, end);
    } else {
      var steps := Overrun(site, s, id, n, r, end, bound + 1);
    }
  }

  lemma FittingCounterIsBounded(site: Site, s: State, id: nat, n: TenantConfig.pos, r: int, end: int)
    requires Consistent(site, s.db) && id in s.db.users && r > 0
    requires FailureCount(s.db.users[id]) + AllowanceOf(s.db.users[id], s.now, n, r, end) <= site.counterMax
    ensures Bounded(site, s, id, n, r, end, RateBound(n, r, end - s.now))
  {
    var row := s.db.users[id];
    AllowanceWithinBound(FailureCount(row), FailedAt(row), s.now, n, r, end);
    forall steps | Undisturbed(site, s, steps, id, n, r) && Run(site, s, steps).now <= end
      ensures WrongPasswords(site, s, steps, id) <= RateBound(n, r, end - s.now)
    {
      WrongPasswordsWithinAllowance(site, s, steps, id, n, r, end);
    }
  }
}
