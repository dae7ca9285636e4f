/** Exactly when login, verification, logout and revocation succeed, and what they leave. */
module SessionRequests {
  import opened Results
  import opened IdentityModel
  import opened Utf8
  import opened Sessions
  import opened SessionSafety
  import opened DirectoryInvariants
  import opened TableSafety
  import TenantConfig
  import Decimal

  // ----- login -----

  /** Account and password are there and not too long. */
  predicate WellFormed(req: LoginRequest) {
    && req.account != "" && ByteLength(req.account) <= 30
    && req.password != "" && ByteLength(req.password) <= 64
  }

  /** An account is open when it has no failure on record, when its tenant does not restrict logins, when its
      failures are no multiple of the try count, or when the restriction time has passed since the last one. */
  predicate Unrestricted(db: Db, row: User, now: int) {
    || row.failedCount == None || row.failedCount == Some(0)
    || match TenantConfig.LoginRestriction(TenantConfig.ConfigOf(db.configs, row.tenant))
       case Success(Off) => true
       case Success(Limit(tries, seconds)) =>
         row.failedCount.value % tries != 0 || (row.failedAt.Some? && row.failedAt.value + seconds <= now)
       case Failure(_) => false
  }

  /** Restricted: the failures on record are a multiple of the tenant's try count and the last one is too recent. */
  predicate RestrictedNow(db: Db, row: User, now: int) {
    && row.failedCount.Some? && row.failedCount.value > 0 && row.failedAt.Some?
    && match TenantConfig.LoginRestriction(TenantConfig.ConfigOf(db.configs, row.tenant))
       case Success(Limit(tries, seconds)) => row.failedCount.value % tries == 0 && row.failedAt.value + seconds > now
       case _ => false
  }

  lemma OpenIffUnrestricted(db: Db, row: User, now: int)
    ensures CheckLoginRestricted(db, row, now).Pass? <==> Unrestricted(db, row, now)
    ensures CheckLoginRestricted(db, row, now) == Fail(LoginRestricted) <==> RestrictedNow(db, row, now)
    ensures CheckLoginRestricted(db, row, now).Fail? ==>
              CheckLoginRestricted(db, row, now).error in {UnusableDatabase, Unknown, NilDereference, LoginRestricted}
  {
  }

  lemma ValidIff(site: Site, db: Db, req: LoginRequest, now: int, id: nat)
    requires Consistent(site, db) && id in db.users && db.users[id].account == req.account
    ensures ValidateLogin(db, req, now) == Success(id)
            <==> WellFormed(req) && Unrestricted(db, db.users[id], now) && req.password == db.users[id].password
    ensures ValidateLogin(db, req, now) == Failure(IncorrectPassword)
            <==> WellFormed(req) && Unrestricted(db, db.users[id], now) && req.password != db.users[id].password
    ensures ValidateLogin(db, req, now) == Failure(LoginRestricted)
            <==> WellFormed(req) && RestrictedNow(db, db.users[id], now)
    ensures ValidateLogin(db, req, now).Success? ==> ValidateLogin(db, req, now).value == id
    ensures ValidateLogin(db, req, now) != Failure(AlreadyLogin)
  {
    AccountFinds(db, id);
    OpenIffUnrestricted(db, db.users[id], now);
  }

  /** When the login of a user succeeds, when it fails on the password and when on an older session. */
  lemma LoginIff(site: Site, s: State, req: LoginRequest, ip: Option<string>, magic: nat, signature: nat, id: nat)
    requires Consistent(site, s.db) && id in s.db.users && s.db.users[id].account == req.account
    ensures var reply := Login(site, s, req, ip, magic, signature).1;
            var row := s.db.users[id];
            var ready := WellFormed(req) && Unrestricted(s.db, row, s.now);
            && (reply.Success? <==> ready && req.password == row.password && ip.Some? && (req.force || id !in s.store))
            && (reply == Failure(IncorrectPassword) <==> ready && req.password != row.password)
            && (reply == Failure(LoginRestricted)
                <==> WellFormed(req) && RestrictedNow(s.db, row, s.now))
            && (reply == Failure(AlreadyLogin)
                <==> ready && req.password == row.password && ip.Some? && !req.force && id in s.store)
  {
    ValidIff(site, s.db, req, s.now, id);
  }

  /** Nobody logs in under an account that no user has. */
  lemma UnknownAccount(site: Site, s: State, req: LoginRequest, ip: Option<string>, magic: nat, signature: nat)
    requires WellFormed(req) && forall id | id in s.db.users :: s.db.users[id].account != req.account
    ensures Login(site, s, req, ip, magic, signature) == (s, Failure(UnauthenticatedRequest))
  {
    if FindByAccount(s.db, req.account).Some? {
      FoundAccount(s.db, req.account);
    }
  }

  /** The idle time of a tenant's sessions: what its configuration says, thirty minutes if that says nothing. */
  predicate IdleMinutes(db: Db, tenant: nat, minutes: int) {
    var cfg := TenantConfig.ConfigOf(db.configs, tenant);
    if TenantConfig.UserSessionTimeout in cfg && Decimal.ParseInt64(cfg[TenantConfig.UserSessionTimeout]).Some?
    then minutes == Decimal.ParseInt64(cfg[TenantConfig.UserSessionTimeout]).value
    else minutes == 30
  }

  /** What a key handed out and the entry stored with it say. */
  lemma KeyFor(db: Db, tenant: nat, id: nat, magic: nat, ip: string, signature: nat, now: int, minutes: int)
    requires IdleMinutes(db, tenant, minutes)
    ensures var key := Key(Payload(id, now, now + minutes * 60, magic, ip), signature);
            && NewKey(db, tenant, id, magic, ip, signature, now) == key
            && NewEntry(db, tenant, key, now) == Entry(key, if minutes == 0 then None else Some(now + minutes * 60))
  {
  }

  /** What a login leaves of a row, beside whether the password is due. */
  ghost predicate Stamped(before: User, row: User, ip: string, now: int) {
    && row == before.(lastLoggedInAt := Some(now), lastLoggedInIp := Some(ip),
                      failedCount := if before.failedCount.None? then None else Some(0),
                      passwordUpdatedAt := row.passwordUpdatedAt, passwordUpdateFlag := row.passwordUpdateFlag)
    && row.passwordUpdatedAt == Some(if before.passwordUpdatedAt.Some? then before.passwordUpdatedAt.value else 0)
    && (before.passwordUpdateFlag == Some(true) ==> row.passwordUpdateFlag == Some(true))
  }

  lemma RowIsStamped(db: Db, row: User, ip: string, now: int)
    ensures Stamped(row, LoggedInRow(db, row, ip, now), ip, now)
  {
  }

  /** A login hands out a key of the user for his address, that ends after the idle time, and stores it; the row
      shows time and address of the login and a cleared count, and otherwise only whether the password is due. */
  lemma LoginLeaves(site: Site, s: State, req: LoginRequest, ip: Option<string>, magic: nat, signature: nat,
                    id: nat, minutes: int)
    requires Consistent(site, s.db) && id in s.db.users && s.db.users[id].account == req.account
    requires IdleMinutes(s.db, s.db.users[id].tenant, minutes)
    requires Login(site, s, req, ip, magic, signature).1.Success?
    ensures ip.Some?
    ensures var (after, reply) := Login(site, s, req, ip, magic, signature);
            && reply.value == Key(Payload(id, s.now, s.now + minutes * 60, magic, ip.value), signature)
            && after.store == s.store[id := Entry(reply.value, if minutes == 0 then None else Some(s.now + minutes * 60))]
            && id in after.db.users
            && after.db == s.db.(users := s.db.users[id := after.db.users[id]])
            && Stamped(s.db.users[id], after.db.users[id], ip.value, s.now)
  {
    AccountFinds(s.db, id);
    var saved := s.db.(users := s.db.users[id := LoggedInRow(s.db, s.db.users[id], ip.value, s.now)]);
    assert LoginUser(s.db, req, ip, s.now) == Success((saved, id));
    RowIsStamped(s.db, s.db.users[id], ip.value, s.now);
    KeyFor(saved, s.db.users[id].tenant, id, magic, ip.value, signature, s.now, minutes);
  }

  /** Days a password may live: what the configuration says, ninety if that says nothing, for ever if it says 0. */
  predicate ChangeCycle(db: Db, tenant: nat, days: int) {
    var cfg := TenantConfig.ConfigOf(db.configs, tenant);
    if TenantConfig.UserPasswordChangeCycle in cfg && Decimal.ParseInt64(cfg[TenantConfig.UserPasswordChangeCycle]).Some?
    then days == Decimal.ParseInt64(cfg[TenantConfig.UserPasswordChangeCycle]).value
    else days == 90
  }

  /** At a login a password is marked as due exactly if it was marked before, or is at least as old as the cycle. */
  lemma PasswordDueIff(db: Db, row: User, ip: string, now: int, days: int)
    requires ChangeCycle(db, row.tenant, days)
    ensures var since := if row.passwordUpdatedAt.Some? then row.passwordUpdatedAt.value else 0;
            LoggedInRow(db, row, ip, now).passwordUpdateFlag == Some(true)
            <==> row.passwordUpdateFlag == Some(true) || (days != 0 && now >= since + days * 86400)
    ensures LoggedInRow(db, row, ip, now).passwordUpdateFlag.Some?
  {
  }

  // ----- settings -----

  /** What an accepted configuration does from then on to sessions, passwords and the lockout of its tenant. */
  lemma SettingsTakeEffect(site: Site, s: State, tid: nat, settings: TenantConfig.Settings)
    requires TenantConfig.Validate(site.zones, Some(settings)).Pass?
    ensures TenantConfig.Complete(settings)
    ensures var after := Next(site, s, StepSetConfig(tid, Some(settings)));
            && after == s.(db := s.db.(configs := after.db.configs))
            && IdleMinutes(after.db, tid, settings.sessionTimeout.value)
            && ChangeCycle(after.db, tid, settings.passwordChangeCycle.value)
            && TenantConfig.LoginRestriction(TenantConfig.ConfigOf(after.db.configs, tid))
               == Success(if settings.restrictionEnable.value
                          then TenantConfig.Limit(settings.tryCount.value, settings.restrictionTime.value) else TenantConfig.Off)
            && (forall t | t != tid :: TenantConfig.ConfigOf(after.db.configs, t) == TenantConfig.ConfigOf(s.db.configs, t))
  {
    TenantConfig.AcceptedInRange(site.zones, settings);
    var cfg := TenantConfig.ConfigOf(s.db.configs, tid);
    TenantConfig.RestrictionReadsBack(cfg, settings);
    WrittenNumbers(cfg, settings);
  }

  lemma WrittenNumbers(cfg: TenantConfig.Config, settings: TenantConfig.Settings)
    requires TenantConfig.Complete(settings) && TenantConfig.InRange(settings)
    ensures var after := cfg + TenantConfig.Written(settings);
            && TenantConfig.UserSessionTimeout in after && TenantConfig.UserPasswordChangeCycle in after
            && Decimal.ParseInt64(after[TenantConfig.UserSessionTimeout]) == Some(settings.sessionTimeout.value)
            && Decimal.ParseInt64(after[TenantConfig.UserPasswordChangeCycle]) == Some(settings.passwordChangeCycle.value)
  {
    var after := cfg + TenantConfig.Written(settings);
    TenantConfig.UnsignedReadsBack(after, TenantConfig.UserSessionTimeout, settings.sessionTimeout.value);
    TenantConfig.UnsignedReadsBack(after, TenantConfig.UserPasswordChangeCycle, settings.passwordChangeCycle.value);
  }

  // ----- verify, logout, revoke -----

  /** The stored session of the key's user is of the same login and address, and the key has not expired. */
  predicate Current(s: State, key: Key, ip: Option<string>) {
    && key in s.history.issued && key.payload.id in s.store
    && var stored := s.store[key.payload.id].key.payload;
       ip == Some(stored.ip) && key.payload.magic == stored.magic && s.now <= key.payload.expiry
  }

  /** A key is accepted exactly if it is current and its user can be read: he and his tenant exist, and for a holder of
      the administrator role the tenant of the request too. Then a key of the same login replaces it. */
  lemma VerifyIff(site: Site, s: State, key: Key, ip: Option<string>, tid: nat, signature: nat, minutes: int)
    requires key.payload.id in s.db.users ==> IdleMinutes(s.db, s.db.users[key.payload.id].tenant, minutes)
    ensures var (after, reply) := Verify(site, s, Readable(key), ip, tid, signature);
            var id := key.payload.id;
            && (reply.Success? <==>
                  && Current(s, key, ip) && id in s.db.users && s.db.users[id].tenant in s.db.tenants
                  && ((id, site.adminRole) in s.db.userRoles && site.adminRole in s.db.roles ==> tid in s.db.tenants))
            && (reply.Failure? ==> after == s)
            && (reply.Success? ==>
                  && reply.value == Key(Payload(id, s.now, s.now + minutes * 60, key.payload.magic, ip.value), signature)
                  && after.db == s.db && after.now == s.now
                  && after.store == s.store[id := Entry(reply.value, if minutes == 0 then None else Some(s.now + minutes * 60))])
  {
  }

  /** Text that is no key, or whose payload is none, is accepted by nothing and changes nothing. */
  lemma NoKeyNoSession(site: Site, s: State, presented: Presented, ip: Option<string>, tid: nat, signature: nat, caller: Caller)
    requires !presented.Readable?
    ensures Verify(site, s, presented, ip, tid, signature).0 == s && Verify(site, s, presented, ip, tid, signature).1.Failure?
    ensures Logout(s, caller, presented).0 == s && Logout(s, caller, presented).1.Fail?
    ensures Revoke(site, s, caller, tid, presented).0 == s && Revoke(site, s, caller, tid, presented).1.Fail?
  {
  }

  /** The state without the session of a user. */
  ghost predicate Removed(s: State, after: State, id: nat) {
    && after == s.(store := after.store)
    && id !in after.store && (forall i :: i in after.store <==> i in s.store && i != id)
    && (forall i | i in after.store :: after.store[i] == s.store[i])
  }

  /** A logout passes exactly for a key of the caller while he has a session, and takes just that session away. */
  lemma LogoutIff(s: State, caller: Caller, key: Key)
    ensures var (after, reply) := Logout(s, caller, Readable(key));
            && (reply.Pass? <==> caller.id == key.payload.id && key.payload.id in s.store)
            && (if reply.Pass? then Removed(s, after, key.payload.id) else after == s)
  {
  }

  /** A revocation passes exactly for a user of the tenant with a session, of the built-in account only for an
      administrator, and takes just that session away. */
  lemma RevokeIff(site: Site, s: State, caller: Caller, tid: nat, key: Key)
    ensures var (after, reply) := Revoke(site, s, caller, tid, Readable(key));
            var id := key.payload.id;
            && (reply.Pass? <==>
                  && id in s.db.users && s.db.users[id].tenant == tid && id in s.store
                  && (id == site.adminUser ==> site.adminRole in caller.roles))
            && (if reply.Pass? then Removed(s, after, id) else after == s)
  {
  }

  /** As steps of a run both end the session exactly when they are asked for by somebody who may. */
  lemma SessionEndsIffAsked(site: Site, s: State, step: Step, id: nat)
    requires (step.StepLogout? || step.StepRevoke?) && id in s.store
    ensures id !in Next(site, s, step).store <==> AsksToEnd(site, s, step, id)
  {
  }

  /** Within the second in which it ends a lease can lapse, not before, and then takes just its session away. */
  lemma LapseIff(site: Site, s: State, id: nat)
    requires Sound(s) && id in s.store
    ensures var after := Next(site, s, StepLapse(id));
            if s.store[id].key.payload.expiry <= s.now then Removed(s, after, id) else after == s
  {
    assert StoredSound(s, id);
  }

  /** A key just handed out by a login or a refresh can be presented at once and is accepted. */
  lemma FreshKeyIsAccepted(site: Site, s: State, step: Step, tid: nat)
    requires Sound(s) && Consistent(site, s.db) && Issues(site, s, step).Some? && tid in s.db.tenants
    ensures var key := Issues(site, s, step).value;
            Accepts(site, Next(site, s, step), Readable(key), Some(key.payload.ip), tid)
  {
    var key := Issues(site, s, step).value;
    match step
    case StepLogin(req, ip, magic, signature) =>
      LoginIsAllOrNothing(site, s, req, ip, magic, signature);
      LoginKeepsConsistent(site, s, req, ip, magic, signature);
      LoginEntry(site, s, req, ip, magic, signature);
      StoredIsAccepted(site, Next(site, s, step), key, tid);
    case StepVerify(presented, ip, _, signature) =>
      KeySpans(s.db, s.db.users[key.payload.id].tenant, key.payload.id, key.payload.magic, key.payload.ip, signature, s.now);
      StoredIsAccepted(site, Next(site, s, step), key, tid);
  }

  lemma StoredIsAccepted(site: Site, s: State, key: Key, tid: nat)
    requires key in s.history.issued && key.payload.id in s.store && s.store[key.payload.id].key == key
    requires s.now <= key.payload.expiry && TenantsKnown(s.db) && tid in s.db.tenants && key.payload.id in s.db.users
    ensures Accepts(site, s, Readable(key), Some(key.payload.ip), tid)
  {
  }
}
