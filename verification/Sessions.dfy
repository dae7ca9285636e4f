/** Login with its failure lockout, and the life of a session: verify, logout, revoke, expiry. */
module Sessions {
  import opened Results
  import opened IdentityModel
  import opened Utf8
  import TenantConfig
  import Directory
  import Decimal

  /** What a session key says. `magic` is drawn once per login and kept by every refresh. */
  datatype Payload = Payload(id: nat, created: int, expiry: int, magic: nat, ip: string)

  datatype Key = Key(payload: Payload, signature: nat)

  /** A key as a client presents it: text that is no key, a key whose payload bytes are
      no payload or the JSON text `null`, or a payload with a signature. */
  datatype Presented = Malformed | Unreadable | NullPayload | Readable(key: Key)

  /** A store entry with the end of its lease; no lease means it stays. */
  datatype Entry = Entry(key: Key, leaseEnd: Option<int>)

  /** What happened so far: every key the server signed, every magic number drawn, and for
      each user the payload of the latest login and the newest key handed out. */
  datatype History = History(issued: set<Key>, magics: set<nat>, logins: map<nat, Payload>, newest: map<nat, Key>)

  datatype State = State(db: Db, store: map<nat, Entry>, now: int, history: History)

  datatype LoginRequest = LoginRequest(account: string, password: string, force: bool)

  const DEFAULT_PASSWORD_CHANGE_CYCLE: int := 90
  const SECONDS_IN_A_DAY: int := 86400

  // ----- lockout -----

  function CheckLoginRestricted(db: Db, row: User, now: int): Outcome<Error> {
    if row.failedCount.None? || row.failedCount.value == 0 then Pass
    else match TenantConfig.LoginRestriction(TenantConfig.ConfigOf(db.configs, row.tenant))
      case Failure(e) => Fail(e)
      case Success(Off) => Pass
      case Success(Limit(tries, seconds)) =>
        if row.failedCount.value % tries != 0 then Pass
        else if row.failedAt.None? then Fail(NilDereference)
        else if row.failedAt.value + seconds > now then Fail(LoginRestricted)
        else Pass
  }

  /** Account and password are measured in bytes here. */
  function ValidateLogin(db: Db, req: LoginRequest, now: int): Result<nat, Error> {
    if req.account == "" then Failure(RequiredParameter("account"))
    else if ByteLength(req.account) > ACCOUNT_LENGTH then Failure(LengthOverflow("account"))
    else if req.password == "" then Failure(RequiredParameter("password"))
    else if ByteLength(req.password) > PASSWORD_LENGTH then Failure(LengthOverflow("password"))
    else match FindByAccount(db, req.account)
      case None => Failure(UnauthenticatedRequest)
      case Some(id) =>
        match CheckLoginRestricted(db, db.users[id], now)
        case Fail(e) => Failure(e)
        case Pass => if db.users[id].password != req.password then Failure(IncorrectPassword) else Success(id)
  }

  /** The failure is written in a transaction of its own; a counter that no longer fits
      its column cannot be saved, and then the row stays as it is. */
  function RecordFailure(site: Site, db: Db, account: string, now: int): Db {
    match FindByAccount(db, account)
    case None => db
    case Some(id) =>
      var row := db.users[id];
      var count := if row.failedCount.Some? then row.failedCount.value + 1 else 1;
      if count > site.counterMax then db
      else db.(users := db.users[id := row.(failedCount := Some(count), failedAt := Some(now))])
  }

  function PasswordChangeCycle(cfg: TenantConfig.Config): int {
    if TenantConfig.UserPasswordChangeCycle in cfg then
      match Decimal.ParseInt64(cfg[TenantConfig.UserPasswordChangeCycle])
      case Some(v) => v
      case None => DEFAULT_PASSWORD_CHANGE_CYCLE
    else
      DEFAULT_PASSWORD_CHANGE_CYCLE
  }

  function LoggedInRow(db: Db, row: User, ip: string, now: int): User {
    var cycle := PasswordChangeCycle(TenantConfig.ConfigOf(db.configs, row.tenant));
    var updatedAt := if row.passwordUpdatedAt.Some? then row.passwordUpdatedAt.value else 0;
    var flag := if row.passwordUpdateFlag.Some? then row.passwordUpdateFlag.value else false;
    row.(lastLoggedInAt := Some(now), lastLoggedInIp := Some(ip),
         failedCount := if row.failedCount.Some? then Some(0) else None,
         passwordUpdatedAt := Some(updatedAt),
         passwordUpdateFlag := Some(flag || (cycle != 0 && now - updatedAt >= SECONDS_IN_A_DAY * cycle)))
  }

  /** The login row is saved before it is known whether a session can be had. */
  function LoginUser(db: Db, req: LoginRequest, ip: Option<string>, now: int): Result<(Db, nat), Error> {
    var id :- ValidateLogin(db, req, now);
    if ip.None? then Failure(InvalidRequest)
    else
      var saved := db.(users := db.users[id := LoggedInRow(db, db.users[id], ip.value, now)]);
      if saved.users[id].tenant !in saved.tenants then Failure(NotFoundTenant)
      else Success((saved, id))
  }

  // ----- sessions -----

  function NewKey(db: Db, tenant: nat, id: nat, magic: nat, ip: string, signature: nat, now: int): Key {
    var timeout := TenantConfig.SessionTimeout(TenantConfig.ConfigOf(db.configs, tenant));
    Key(Payload(id, now, now + timeout * 60, magic, ip), signature)
  }

  /** The lease is granted for the same timeout as the key; a zero time to live asks for no lease. */
  function NewEntry(db: Db, tenant: nat, key: Key, now: int): Entry {
    var timeout := TenantConfig.SessionTimeout(TenantConfig.ConfigOf(db.configs, tenant));
    Entry(key, if timeout == 0 then None else Some(now + timeout * 60))
  }

  function Remember(h: History, key: Key): History {
    h.(issued := h.issued + {key}, newest := h.newest[key.payload.id := key])
  }

  function NewSession(s: State, tenant: nat, id: nat, ip: string, magic: nat, signature: nat, force: bool)
    : Result<(State, Key), Error>
  {
    if id in s.store && !force then Failure(AlreadyLogin)
    else
      var key := NewKey(s.db, tenant, id, magic, ip, signature, s.now);
      var h := Remember(s.history, key);
      Success((s.(store := s.store[id := NewEntry(s.db, tenant, key, s.now)],
                  history := h.(magics := h.magics + {magic}, logins := h.logins[id := key.payload])), key))
  }

  /** The body of the login transaction, on the working tables of `s`. */
  function LoginBody(s: State, req: LoginRequest, ip: Option<string>, magic: nat, signature: nat)
    : (State, Result<Key, Error>)
  {
    match LoginUser(s.db, req, ip, s.now)
    case Failure(e) => (s, Failure(e))
    case Success((saved, id)) =>
      var working := s.(db := saved);
      match NewSession(working, saved.users[id].tenant, id, ip.value, magic, signature, req.force)
      case Failure(e) => (working, Failure(e))
      case Success((next, key)) => (next, Success(key))
  }

  /** Tables changed by a failed transaction are rolled back; the store is not part of it.
      A wrong password is recorded after the rollback. */
  function Login(site: Site, s: State, req: LoginRequest, ip: Option<string>, magic: nat, signature: nat)
    : (State, Result<Key, Error>)
  {
    var (after, reply) := LoginBody(s, req, ip, magic, signature);
    if reply.Success? then (after, reply)
    else
      var rolledBack := after.(db := s.db);
      if reply.error == IncorrectPassword then
        (rolledBack.(db := RecordFailure(site, s.db, req.account, s.now)), reply)
      else
        (rolledBack, reply)
  }

  /** Reading the user also reads his tenant, and for an administrator the groups of the
      tenant named in the request header. */
  function GetUser(site: Site, db: Db, tid: nat, id: nat): Outcome<Error> {
    if id !in db.users then Fail(NotFoundUser)
    else if db.users[id].tenant !in db.tenants then Fail(NotFoundTenant)
    else if site.adminRole in RolesOf(db, id) && tid !in db.tenants then Fail(NotFoundTenant)
    else Pass
  }

  function CheckSession(s: State, presented: Presented, ip: Option<string>): Result<Payload, Error> {
    match presented
    case Malformed => Failure(UnauthenticatedRequest)
    case Unreadable => Failure(UnverifiedSession)
    case NullPayload => Failure(UnverifiedSession)
    case Readable(key) =>
      if key !in s.history.issued then Failure(UnverifiedSession)
      else if key.payload.id !in s.store then Failure(UnauthenticatedRequest)
      else
        var stored := s.store[key.payload.id].key.payload;
        if ip.None? then Failure(InvalidRequest)
        else if ip.value != stored.ip || key.payload.magic != stored.magic then Failure(UnauthenticatedRequest)
        else if key.payload.expiry < s.now then Failure(ExpiredSession)
        else Success(key.payload)
  }

  /** A session that verifies is refreshed: a new key with the same magic number replaces the entry. */
  function Verify(site: Site, s: State, presented: Presented, ip: Option<string>, tid: nat, signature: nat)
    : (State, Result<Key, Error>)
  {
    match CheckSession(s, presented, ip)
    case Failure(e) => (s, Failure(e))
    case Success(payload) =>
      match GetUser(site, s.db, tid, payload.id)
      case Fail(e) => (s, Failure(e))
      case Pass =>
        var tenant := s.db.users[payload.id].tenant;
        var key := NewKey(s.db, tenant, payload.id, payload.magic, ip.value, signature, s.now);
        (s.(store := s.store[payload.id := NewEntry(s.db, tenant, key, s.now)],
            history := Remember(s.history, key)), Success(key))
  }

  function DeleteSession(s: State, id: nat): (State, Outcome<Error>) {
    if id in s.store then (s.(store := s.store - {id}), Pass) else (s, Fail(UnknownSession))
  }

  /** The key only has to name the caller; its signature is not looked at. */
  function Logout(s: State, caller: Caller, presented: Presented): (State, Outcome<Error>) {
    match presented
    case Malformed => (s, Fail(InvalidSession))
    case Unreadable => (s, Fail(Unknown))
    case NullPayload => (s, Fail(NilDereference))
    case Readable(key) =>
      if caller.id != key.payload.id then (s, Fail(InvalidParameterValue("session")))
      else DeleteSession(s, key.payload.id)
  }

  function Revoke(site: Site, s: State, caller: Caller, tid: nat, presented: Presented): (State, Outcome<Error>) {
    match presented
    case Malformed => (s, Fail(InvalidSession))
    case Unreadable => (s, Fail(Unknown))
    case NullPayload => (s, Fail(NilDereference))
    case Readable(key) =>
      var id := key.payload.id;
      if !IsAdmin(site, caller.roles) && site.adminUser == id then (s, Fail(InvalidParameterValue("session")))
      else if id !in s.db.users || s.db.users[id].tenant != tid then (s, Fail(InvalidParameterValue("session")))
      else DeleteSession(s, id)
  }

  // ----- runs -----

  datatype Step =
    | StepLogin(req: LoginRequest, ip: Option<string>, magic: nat, signature: nat)
    | StepVerify(presented: Presented, ip: Option<string>, tid: nat, signature: nat)
    | StepLogout(caller: Caller, presented: Presented)
    | StepRevoke(caller: Caller, tid: nat, presented: Presented)
    | StepTick(seconds: nat)
    | StepLapse(id: nat)
    | StepSetConfig(tid: nat, settings: Option<TenantConfig.Settings>)
    | StepDirectory(op: Directory.Op)

  predicate LeaseOver(e: Entry, now: int) {
    e.leaseEnd.Some? && e.leaseEnd.value < now
  }

  /** A second in which a lease ends may still see its entry or not: `StepLapse` removes it
      within that second, and at the latest it is gone when the clock moves on. */
  function Next(site: Site, s: State, step: Step): State {
    match step
    case StepLogin(req, ip, magic, signature) => Login(site, s, req, ip, magic, signature).0
    case StepVerify(presented, ip, tid, signature) => Verify(site, s, presented, ip, tid, signature).0
    case StepLogout(caller, presented) => Logout(s, caller, presented).0
    case StepRevoke(caller, tid, presented) => Revoke(site, s, caller, tid, presented).0
    case StepTick(seconds) =>
      var now := s.now + seconds;
      s.(now := now, store := map id | id in s.store && !LeaseOver(s.store[id], now) :: s.store[id])
    case StepLapse(id) =>
      if id in s.store && s.store[id].leaseEnd.Some? && s.store[id].leaseEnd.value <= s.now
      then s.(store := s.store - {id}) else s
    case StepSetConfig(tid, settings) =>
      (match TenantConfig.Set(site.zones, s.db.configs, tid, settings)
       case Success(configs) => s.(db := s.db.(configs := configs))
       case Failure(_) => s)
    case StepDirectory(op) => s.(db := Directory.Apply(site, s.db, op, s.now))
  }

  function Run(site: Site, s: State, steps: seq<Step>): State
    decreases |steps|
  {
    if steps == [] then s else Run(site, Next(site, s, steps[0]), steps[1..])
  }

  /** Magic numbers are assumed never to repeat. */
  ghost predicate Admissible(site: Site, s: State, steps: seq<Step>)
    decreases |steps|
  {
    steps == [] ||
    (&& (steps[0].StepLogin? ==> steps[0].magic !in s.history.magics)
     && Admissible(site, Next(site, s, steps[0]), steps[1..]))
  }

  /** The key a step hands out. */
  function Issues(site: Site, s: State, step: Step): Option<Key> {
    match step
    case StepLogin(req, ip, magic, signature) =>
      (match Login(site, s, req, ip, magic, signature).1
       case Success(key) => Some(key)
       case Failure(_) => None)
    case StepVerify(presented, ip, tid, signature) =>
      (match Verify(site, s, presented, ip, tid, signature).1
       case Success(key) => Some(key)
       case Failure(_) => None)
    case _ => None
  }

  /** Does the step ask, by somebody who may, for the end of user `id`'s session: by his own logout, or by a
      revocation in his tenant, of the built-in account only by an administrator? */
  predicate AsksToEnd(site: Site, s: State, step: Step, id: nat) {
    match step
    case StepLogout(caller, presented) =>
      presented.Readable? && presented.key.payload.id == id && caller.id == id
    case StepRevoke(caller, tid, presented) =>
      && presented.Readable? && presented.key.payload.id == id
      && id in s.db.users && s.db.users[id].tenant == tid
      && (id == site.adminUser ==> site.adminRole in caller.roles)
    case _ => false
  }

  /** Does it end a session that is stored? */
  predicate Ends(site: Site, s: State, step: Step, id: nat) {
    AsksToEnd(site, s, step, id) && id in s.store
  }

  predicate LogsIn(site: Site, s: State, step: Step, id: nat) {
    step.StepLogin? && Issues(site, s, step).Some? && Issues(site, s, step).value.payload.id == id
  }
}
