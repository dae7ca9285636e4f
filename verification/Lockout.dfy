/** How many wrong passwords an account can be tried with: the failure counter, its restriction
    and the clock, over whole runs of the service. */
module Lockout {
  import opened Results
  import opened IdentityModel
  import opened Sessions
  import opened SessionSafety
  import opened DirectoryInvariants
  import opened TableSafety
  import TenantConfig
  import Directory

  // ----- arithmetic of the windows -----

  lemma MulNonNegative(x: int, n: int)
    requires x >= 0 && n >= 0
    ensures n * x >= 0
  {
  }

  lemma MulMono(x: int, y: int, n: int)
    requires x <= y && n >= 0
    ensures n * x <= n * y
  {
    MulNonNegative(y - x, n);
    assert n * (y - x) == n * y - n * x;
  }

  lemma MulCancel(x: int, y: int, n: int)
    requires n > 0 && n * x < n * y
    ensures x < y
  {
    if y <= x {
      MulMono(y, x, n);
    }
  }

  lemma QuotientUnique(x: int, q: int, rem: int, d: int)
    requires 0 <= rem < d && x == d * q + rem
    ensures x / d == q && x % d == rem
  {
    assert d * (q + 1) == d * q + d;
    assert d * (x / d + 1) == d * (x / d) + d;
    MulCancel(x / d, q + 1, d);
    MulCancel(q, x / d + 1, d);
  }

  lemma DivShift(x: int, d: int)
    requires d > 0
    ensures (x + d) / d == x / d + 1
  {
    assert d * (x / d + 1) == d * (x / d) + d;
    QuotientUnique(x + d, x / d + 1, x % d, d);
  }

  /** `n` wrong passwords for every window of `r` seconds that has begun. */
  function RateBound(n: nat, r: int, seconds: int): (b: int)
    requires r > 0
    ensures b >= n
    decreases seconds
  {
    if seconds < r then n else n + RateBound(n, r, seconds - r)
  }

  lemma {:induction false} RateBoundIsProduct(n: nat, r: int, seconds: int)
    requires r > 0 && seconds >= 0
    ensures RateBound(n, r, seconds) == n * (seconds / r + 1)
    decreases seconds
  {
    if seconds < r {
      QuotientUnique(seconds, 0, seconds, r);
    } else {
      RateBoundIsProduct(n, r, seconds - r);
      DivShift(seconds - r, r);
      assert n * (seconds / r + 1) == n * (seconds / r) + n;
    }
  }

  lemma {:induction false} RateBoundMono(n: nat, r: int, x: int, y: int)
    requires r > 0 && x <= y
    ensures RateBound(n, r, x) <= RateBound(n, r, y)
    decreases y
  {
    if r <= x {
      RateBoundMono(n, r, x - r, y - r);
    }
  }

  /** When the next password of an account will be looked at, at the earliest. */
  function Reopens(count: nat, failedAt: int, now: int, n: nat, r: int): int
    requires n > 0
  {
    if count > 0 && count % n == 0 && failedAt + r > now then failedAt + r else now
  }

  /** How many wrong passwords can still be looked at until time `end`: the rest of the tries of the
      first window and all tries of the later ones. */
  function Allowance(count: nat, failedAt: int, now: int, n: nat, r: int, end: int): (a: int)
    requires n > 0 && r > 0
    ensures a >= 0
  {
    var open := Reopens(count, failedAt, now, n, r);
    if open > end then 0 else RateBound(n, r, end - open) - count % n
  }

  lemma AllowanceWithinBound(count: nat, failedAt: int, now: int, n: nat, r: int, end: int)
    requires n > 0 && r > 0
    ensures Allowance(count, failedAt, now, n, r, end) <= RateBound(n, r, end - now)
  {
    var open := Reopens(count, failedAt, now, n, r);
    if open <= end {
      RateBoundMono(n, r, end - open, end - now);
    }
  }

  lemma AllowanceShrinks(count: nat, failedAt: int, now: int, later: int, n: nat, r: int, end: int)
    requires n > 0 && r > 0 && now <= later <= end
    ensures Allowance(count, failedAt, later, n, r, end) <= Allowance(count, failedAt, now, n, r, end)
  {
    var open, open' := Reopens(count, failedAt, now, n, r), Reopens(count, failedAt, later, n, r);
    if open' <= end {
      RateBoundMono(n, r, end - open', end - open);
    }
  }

  lemma NextCountMod(count: nat, n: nat)
    requires n > 0
    ensures (count + 1) % n == if count % n + 1 == n then 0 else count % n + 1
  {
    var q := count / n;
    if count % n + 1 == n {
      assert n * (q + 1) == n * q + n;
      QuotientUnique(count + 1, q + 1, 0, n);
    } else {
      QuotientUnique(count + 1, q, count % n + 1, n);
    }
  }

  /** Looking at one wrong password at an open moment uses up exactly one of the allowance. */
  lemma AllowanceUsed(count: nat, failedAt: int, now: int, n: nat, r: int, end: int)
    requires n > 0 && r > 0 && now <= end && Reopens(count, failedAt, now, n, r) == now
    ensures Allowance(count + 1, now, now, n, r, end) == Allowance(count, failedAt, now, n, r, end) - 1
  {
    NextCountMod(count, n);
  }

  // ----- runs -----

  /** Is a wrong password for user `id` looked at in this step? */
  predicate WrongPassword(site: Site, s: State, step: Step, id: nat) {
    && step.StepLogin?
    && Login(site, s, step.req, step.ip, step.magic, step.signature).1 == Failure(IncorrectPassword)
    && FindByAccount(s.db, step.req.account) == Some(id)
  }

  ghost function WrongPasswords(site: Site, s: State, steps: seq<Step>, id: nat): nat
    decreases |steps|
  {
    if steps == [] then 0
    else (if WrongPassword(site, s, steps[0], id) then 1 else 0)
         + WrongPasswords(site, Next(site, s, steps[0]), steps[1..], id)
  }

  /** A successful profile update rebuilds the row without the counter, a deletion takes the row away. */
  predicate RemovesCounter(site: Site, db: Db, op: Directory.Op, now: int, id: nat) {
    && Directory.Request(site, db, op, now).Success?
    && ((op.OpUpdateUser? && op.userId == id) || (op.OpDeleteUser? && op.userId == id))
  }

  /** A successful login clears the counter. */
  predicate Resets(site: Site, s: State, step: Step, id: nat) {
    || LogsIn(site, s, step, id)
    || (step.StepDirectory? && RemovesCounter(site, s.db, step.op, s.now, id))
  }

  function RestrictionOf(db: Db, id: nat): Result<TenantConfig.Restriction, Error>
    requires id in db.users
  {
    TenantConfig.LoginRestriction(TenantConfig.ConfigOf(db.configs, db.users[id].tenant))
  }

  /** All through the run the account's tenant restricts logins to `n` tries per `r` seconds,
      and nothing resets the account's counter. */
  ghost predicate Undisturbed(site: Site, s: State, steps: seq<Step>, id: nat, n: TenantConfig.pos, r: int)
    decreases |steps|
  {
    steps == [] ||
    (&& id in s.db.users && RestrictionOf(s.db, id) == Success(TenantConfig.Limit(n, r))
     && !Resets(site, s, steps[0], id)
     && Undisturbed(site, Next(site, s, steps[0]), steps[1..], id, n, r))
  }

  predicate SameCounter(a: User, b: User) {
    a.failedCount == b.failedCount && a.failedAt == b.failedAt && a.tenant == b.tenant && a.account == b.account
  }

  lemma DirectoryKeepsCounter(site: Site, db: Db, op: Directory.Op, now: int, id: nat)
    requires IdsKnown(db) && id in db.users
    requires !RemovesCounter(site, db, op, now, id)
    ensures var after := Directory.Apply(site, db, op, now);
            id in after.users && SameCounter(after.users[id], db.users[id])
  {
  }

  lemma LoginKeepsOtherCounters(site: Site, s: State, req: LoginRequest, ip: Option<string>,
                                magic: nat, signature: nat, id: nat)
    requires id in s.db.users
    requires var reply := Login(site, s, req, ip, magic, signature).1;
             match reply
             case Success(key) => key.payload.id != id
             case Failure(e) => e == IncorrectPassword ==> FindByAccount(s.db, req.account) != Some(id)
    ensures var after := Login(site, s, req, ip, magic, signature).0;
            id in after.db.users && after.db.users[id] == s.db.users[id]
  {
    LoginIsAllOrNothing(site, s, req, ip, magic, signature);
  }

  lemma StepLeavesUsers(site: Site, s: State, step: Step)
    requires !step.StepLogin? && !step.StepDirectory?
    ensures Next(site, s, step).db.users == s.db.users
  {
  }

  lemma OtherStepsKeepCounter(site: Site, s: State, step: Step, id: nat)
    requires Consistent(site, s.db) && id in s.db.users
    requires !Resets(site, s, step, id) && !WrongPassword(site, s, step, id)
    ensures var after := Next(site, s, step);
            id in after.db.users && SameCounter(after.db.users[id], s.db.users[id])
  {
    if step.StepLogin? {
      LoginKeepsOtherCounters(site, s, step.req, step.ip, step.magic, step.signature, id);
    } else if step.StepDirectory? {
      DirectoryKeepsCounter(site, s.db, step.op, s.now, id);
    } else {
      StepLeavesUsers(site, s, step);
    }
  }

  lemma {:induction false} ClockNeverGoesBack(site: Site, s: State, steps: seq<Step>)
    ensures s.now <= Run(site, s, steps).now
    decreases |steps|
  {
    if steps != [] {
      if steps[0].StepLogin? {
        LoginIsAllOrNothing(site, s, steps[0].req, steps[0].ip, steps[0].magic, steps[0].signature);
      }
      ClockNeverGoesBack(site, Next(site, s, steps[0]), steps[1..]);
    }
  }

  function FailedAt(row: User): int {
    if row.failedAt.Some? then row.failedAt.value else 0
  }

  function AllowanceOf(row: User, now: int, n: nat, r: int, end: int): int
    requires n > 0 && r > 0
  {
    Allowance(FailureCount(row), FailedAt(row), now, n, r, end)
  }

  lemma WrongPasswordEffect(site: Site, s: State, step: Step, id: nat, n: TenantConfig.pos, r: int)
    requires Consistent(site, s.db) && WrongPassword(site, s, step, id) && r > 0
    requires id in s.db.users && RestrictionOf(s.db, id) == Success(TenantConfig.Limit(n, r))
    ensures var row := s.db.users[id];
            && Reopens(FailureCount(row), FailedAt(row), s.now, n, r) == s.now
            && Next(site, s, step) == (if FailureCount(row) < site.counterMax
                 then s.(db := s.db.(users := s.db.users[id := row.(
                           failedCount := Some(FailureCount(row) + 1), failedAt := Some(s.now))]))
                 else s)
  {
    LoginIsAllOrNothing(site, s, step.req, step.ip, step.magic, step.signature);
    assert FailureRecorded(s.db.users[id]);
  }

  lemma WrongPasswordStep(site: Site, s: State, step: Step, id: nat, n: TenantConfig.pos, r: int, end: int)
    requires Consistent(site, s.db) && WrongPassword(site, s, step, id) && r > 0 && s.now <= end
    requires id in s.db.users && RestrictionOf(s.db, id) == Success(TenantConfig.Limit(n, r))
    requires FailureCount(s.db.users[id]) + AllowanceOf(s.db.users[id], s.now, n, r, end) <= site.counterMax
    ensures var after := Next(site, s, step);
            && after.now == s.now && id in after.db.users
            && FailureCount(after.db.users[id]) == FailureCount(s.db.users[id]) + 1
            && AllowanceOf(after.db.users[id], s.now, n, r, end) + 1 <= AllowanceOf(s.db.users[id], s.now, n, r, end)
  {
    var row := s.db.users[id];
    WrongPasswordEffect(site, s, step, id, n, r);
    AllowanceUsed(FailureCount(row), FailedAt(row), s.now, n, r, end);
    AllowanceWithinBound(FailureCount(row) + 1, s.now, s.now, n, r, end);
  }

  lemma {:induction false} WrongPasswordsWithinAllowance(site: Site, s: State, steps: seq<Step>, id: nat,
                                                         n: TenantConfig.pos, r: int, end: int)
    requires Consistent(site, s.db) && r > 0 && id in s.db.users && Undisturbed(site, s, steps, id, n, r)
    requires Run(site, s, steps).now <= end
    requires FailureCount(s.db.users[id]) + AllowanceOf(s.db.users[id], s.now, n, r, end) <= site.counterMax
    ensures WrongPasswords(site, s, steps, id) <= AllowanceOf(s.db.users[id], s.now, n, r, end)
    decreases |steps|
  {
    var row := s.db.users[id];
    ClockNeverGoesBack(site, s, steps);
    if steps != [] {
      var next := Next(site, s, steps[0]);
      NextKeepsConsistent(site, s, steps[0]);
      ClockNeverGoesBack(site, next, steps[1..]);
      ClockNeverGoesBack(site, s, [steps[0]]);
      if WrongPassword(site, s, steps[0], id) {
        WrongPasswordStep(site, s, steps[0], id, n, r, end);
      } else {
        OtherStepsKeepCounter(site, s, steps[0], id);
        AllowanceShrinks(FailureCount(row), FailedAt(row), s.now, next.now, n, r, end);
      }
      WrongPasswordsWithinAllowance(site, next, steps[1..], id, n, r, end);
    }
  }

  /** Lockout rate bound: between times a and b at most n * (floor((b - a) / r) + 1) wrong passwords
      are looked at, whatever else the service does meanwhile, as long as the counter fits its column.
      (`RateBoundIsProduct` gives the product form.) */
  lemma WrongPasswordsBounded(site: Site, s: State, steps: seq<Step>, id: nat, n: TenantConfig.pos, r: int,
                              end: int)
    requires Consistent(site, s.db) && r > 0 && id in s.db.users && Undisturbed(site, s, steps, id, n, r)
    requires Run(site, s, steps).now <= end
    requires FailureCount(s.db.users[id]) + RateBound(n, r, end - s.now) <= site.counterMax
    ensures WrongPasswords(site, s, steps, id) <= RateBound(n, r, end - s.now)
  {
    AllowanceWithinBound(FailureCount(s.db.users[id]), FailedAt(s.db.users[id]), s.now, n, r, end);
    WrongPasswordsWithinAllowance(site, s, steps, id, n, r, end);
  }
}
