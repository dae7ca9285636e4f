/** Claims about whole runs of the session service: who is accepted, until when, and what a login does. */
module SessionSafety {
  import opened Results
  import opened IdentityModel
  import opened Sessions
  import TenantConfig
  import Directory

  function FailureCount(row: User): nat {
    if row.failedCount.Some? then row.failedCount.value else 0
  }

  /** Every login request ends in exactly one of three ways: one new session with the failure
      count cleared, one more recorded failure with the sessions untouched, or nothing at all. */
  lemma LoginIsAllOrNothing(site: Site, s: State, req: LoginRequest, ip: Option<string>, magic: nat, signature: nat)
    ensures var (after, reply) := Login(site, s, req, ip, magic, signature);
            match reply
            case Success(key) =>
              var id := key.payload.id;
              && FindByAccount(s.db, req.account) == Some(id)
              && CheckLoginRestricted(s.db, s.db.users[id], s.now).Pass?
              && s.db.users[id].password == req.password
              && (id in s.store ==> req.force)
              && ip == Some(key.payload.ip) && key.payload.magic == magic && key.payload.created == s.now
              && id in after.store && after.store == s.store[id := after.store[id]] && after.store[id].key == key
              && id in after.db.users && after.db == s.db.(users := s.db.users[id := after.db.users[id]])
              && FailureCount(after.db.users[id]) == 0
              && after.db.users[id].failedAt == s.db.users[id].failedAt
              && after.db.users[id].account == s.db.users[id].account
              && after.db.users[id].tenant == s.db.users[id].tenant
              && after.db.users[id].password == req.password
              && after.now == s.now
              && after.history == s.history.(
                   issued := s.history.issued + {key}, magics := s.history.magics + {magic},
                   logins := s.history.logins[id := key.payload], newest := s.history.newest[id := key])
            case Failure(IncorrectPassword) =>
              && FindByAccount(s.db, req.account).Some?
              && var id := FindByAccount(s.db, req.account).value;
              && CheckLoginRestricted(s.db, s.db.users[id], s.now).Pass?
              && s.db.users[id].password != req.password
              && after == (if FailureCount(s.db.users[id]) < site.counterMax
                           then s.(db := s.db.(users := s.db.users[id := s.db.users[id].(
                                     failedCount := Some(FailureCount(s.db.users[id]) + 1), failedAt := Some(s.now))]))
                           else s)
            case Failure(_) => after == s
  {
  }

  ghost predicate TimeoutsInRange(db: Db) {
    forall t: nat :: 1 <= TenantConfig.SessionTimeout(TenantConfig.ConfigOf(db.configs, t)) <= 1440
  }

  /** A stored session is the newest key of its user, belongs to his latest login,
      and its lease ends with the key. */
  ghost predicate StoredSound(s: State, id: nat)
    requires id in s.store
  {
    var key := s.store[id].key;
    && key.payload.id == id && key in s.history.issued
    && s.store[id].leaseEnd == Some(key.payload.expiry) && s.now <= key.payload.expiry
    && id in s.history.newest && s.history.newest[id] == key
    && id in s.history.logins
    && s.history.logins[id].magic == key.payload.magic && s.history.logins[id].ip == key.payload.ip
  }

  /** A magic number belongs to one login: of one user, from one address. */
  ghost predicate IssuedSound(h: History, key: Key) {
    && key.payload.magic in h.magics && key.payload.id in h.logins
    && (forall id | id in h.logins && h.logins[id].magic == key.payload.magic ::
          id == key.payload.id && h.logins[id].ip == key.payload.ip)
  }

  ghost predicate HistorySound(h: History) {
    && (forall key | key in h.issued :: IssuedSound(h, key))
    && (forall id | id in h.logins :: h.logins[id].magic in h.magics)
    && (forall id | id in h.newest :: h.newest[id] in h.issued && h.newest[id].payload.id == id)
  }

  ghost predicate Sound(s: State) {
    && TimeoutsInRange(s.db)
    && (forall id | id in s.store :: StoredSound(s, id))
    && HistorySound(s.history)
  }

  /** A fresh service: no session yet, nothing signed. */
  ghost predicate Initial(s: State) {
    TimeoutsInRange(s.db) && s.store == map[] && s.history == History({}, {}, map[], map[])
  }

  lemma InitialIsSound(s: State)
    requires Initial(s)
    ensures Sound(s)
  {
  }

  lemma KeySpans(db: Db, tenant: nat, id: nat, magic: nat, ip: string, signature: nat, now: int)
    requires TimeoutsInRange(db)
    ensures var key := NewKey(db, tenant, id, magic, ip, signature, now);
            && now + 60 <= key.payload.expiry <= now + 86400
            && NewEntry(db, tenant, key, now) == Entry(key, Some(key.payload.expiry))
  {
  }

  lemma LoginKeepsSound(site: Site, s: State, req: LoginRequest, ip: Option<string>, magic: nat, signature: nat)
    requires Sound(s) && magic !in s.history.magics
    ensures Sound(Login(site, s, req, ip, magic, signature).0)
  {
    LoginIsAllOrNothing(site, s, req, ip, magic, signature);
    var (after, reply) := Login(site, s, req, ip, magic, signature);
    if reply.Success? {
      LoginEntry(site, s, req, ip, magic, signature);
      NewLoginSound(s, after, reply.value);
    }
  }

  lemma LoginEntry(site: Site, s: State, req: LoginRequest, ip: Option<string>, magic: nat, signature: nat)
    requires TimeoutsInRange(s.db) && Login(site, s, req, ip, magic, signature).1.Success?
    ensures var (after, reply) := Login(site, s, req, ip, magic, signature);
            var id := reply.value.payload.id;
            && id in after.store && after.store[id] == Entry(reply.value, Some(reply.value.payload.expiry))
            && s.now < reply.value.payload.expiry
  {
    var id := FindByAccount(s.db, req.account).value;
    var saved := LoginUser(s.db, req, ip, s.now).value.0;
    KeySpans(saved, saved.users[id].tenant, id, magic, ip.value, signature, s.now);
  }

  lemma NewLoginSound(s: State, after: State, key: Key)
    requires Sound(s) && key.payload.magic !in s.history.magics && s.now < key.payload.expiry
    requires after.now == s.now && after.db.configs == s.db.configs
    requires after.store == s.store[key.payload.id := Entry(key, Some(key.payload.expiry))]
    requires after.history == s.history.(
               issued := s.history.issued + {key}, magics := s.history.magics + {key.payload.magic},
               logins := s.history.logins[key.payload.id := key.payload],
               newest := s.history.newest[key.payload.id := key])
    ensures Sound(after)
  {
    assert forall k | k in s.history.issued :: IssuedSound(s.history, k);
    forall k | k in after.history.issued ensures IssuedSound(after.history, k) {
      assert k != key ==> IssuedSound(s.history, k);
    }
    forall id | id in after.store ensures StoredSound(after, id) {
      assert id != key.payload.id ==> StoredSound(s, id);
    }
  }

  lemma RefreshSound(s: State, after: State, used: Key, key: Key)
    requires Sound(s) && used in s.history.issued && used.payload.id == key.payload.id
    requires key.payload.id in s.store && s.now < key.payload.expiry
    requires used.payload.magic == s.store[key.payload.id].key.payload.magic == key.payload.magic
    requires key.payload.ip == s.store[key.payload.id].key.payload.ip
    requires after.now == s.now && after.db.configs == s.db.configs
    requires after.store == s.store[key.payload.id := Entry(key, Some(key.payload.expiry))]
    requires after.history == Remember(s.history, key)
    ensures Sound(after)
  {
    assert StoredSound(s, key.payload.id);
    assert IssuedSound(s.history, used);
    forall k | k in after.history.issued ensures IssuedSound(after.history, k) {
      assert k != key ==> IssuedSound(s.history, k);
    }
    forall id | id in after.store ensures StoredSound(after, id) {
      assert id != key.payload.id ==> StoredSound(s, id);
    }
  }

  lemma VerifyKeepsSound(site: Site, s: State, presented: Presented, ip: Option<string>, tid: nat, signature: nat)
    requires Sound(s)
    ensures Sound(Verify(site, s, presented, ip, tid, signature).0)
  {
    var (after, reply) := Verify(site, s, presented, ip, tid, signature);
    if reply.Success? {
      var id := presented.key.payload.id;
      KeySpans(s.db, s.db.users[id].tenant, id, presented.key.payload.magic, ip.value, signature, s.now);
      RefreshSound(s, after, presented.key, reply.value);
    }
  }

  lemma RemovalKeepsSound(s: State, after: State)
    requires Sound(s) && after == s.(store := after.store)
    requires forall id | id in after.store :: id in s.store && after.store[id] == s.store[id]
    ensures Sound(after)
  {
    forall id | id in after.store ensures StoredSound(after, id) {
      assert StoredSound(s, id);
    }
  }

  /** Passing time takes away exactly the sessions whose key has expired by then. */
  lemma TickKeepsSound(site: Site, s: State, seconds: nat)
    requires Sound(s)
    ensures Sound(Next(site, s, StepTick(seconds)))
    ensures var after := Next(site, s, StepTick(seconds));
            && (forall id :: id in after.store <==> id in s.store && s.now + seconds <= s.store[id].key.payload.expiry)
            && (forall id | id in after.store :: after.store[id] == s.store[id])
  {
    var after := Next(site, s, StepTick(seconds));
    assert forall id | id in s.store :: StoredSound(s, id);
    forall id | id in after.store ensures StoredSound(after, id) {
      assert StoredSound(s, id);
    }
  }

  lemma SetConfigKeepsTimeouts(site: Site, db: Db, tid: nat, settings: Option<TenantConfig.Settings>)
    requires TimeoutsInRange(db) && TenantConfig.Set(site.zones, db.configs, tid, settings).Success?
    ensures TimeoutsInRange(db.(configs := TenantConfig.Set(site.zones, db.configs, tid, settings).value))
  {
    TenantConfig.AcceptedPolicy(site.zones, db.configs, tid, settings.value);
    TenantConfig.RoundTrip(site.zones, db.configs, tid, settings.value);
  }

  lemma TablesKeepSound(s: State, db: Db)
    requires Sound(s) && TimeoutsInRange(db)
    ensures Sound(s.(db := db))
  {
    var after := s.(db := db);
    forall id | id in after.store ensures StoredSound(after, id) {
      assert StoredSound(s, id);
    }
  }

  lemma DirectoryKeepsConfigs(site: Site, db: Db, op: Directory.Op, now: int)
    ensures Directory.Apply(site, db, op, now).configs == db.configs
  {
  }

  lemma RemovalStepKeepsSound(site: Site, s: State, step: Step)
    requires Sound(s) && (step.StepLogout? || step.StepRevoke? || step.StepLapse?)
    ensures Sound(Next(site, s, step))
  {
    RemovalKeepsSound(s, Next(site, s, step));
  }

  lemma TableStepKeepsSound(site: Site, s: State, step: Step)
    requires Sound(s) && (step.StepSetConfig? || step.StepDirectory?)
    ensures Sound(Next(site, s, step))
  {
    match step
    case StepSetConfig(tid, settings) =>
      if TenantConfig.Set(site.zones, s.db.configs, tid, settings).Success? {
        SetConfigKeepsTimeouts(site, s.db, tid, settings);
        TablesKeepSound(s, Next(site, s, step).db);
      }
    case StepDirectory(op) =>
      DirectoryKeepsConfigs(site, s.db, op, s.now);
      TablesKeepSound(s, Next(site, s, step).db);
  }

  lemma NextKeepsSound(site: Site, s: State, step: Step)
    requires Sound(s) && (step.StepLogin? ==> step.magic !in s.history.magics)
    ensures Sound(Next(site, s, step))
  {
    match step
    case StepLogin(req, ip, magic, signature) => LoginKeepsSound(site, s, req, ip, magic, signature);
    case StepVerify(presented, ip, tid, signature) => VerifyKeepsSound(site, s, presented, ip, tid, signature);
    case StepTick(seconds) => TickKeepsSound(site, s, seconds);
    case StepLogout(_, _) => RemovalStepKeepsSound(site, s, step);
    case StepRevoke(_, _, _) => RemovalStepKeepsSound(site, s, step);
    case StepLapse(_) => RemovalStepKeepsSound(site, s, step);
    case _ => TableStepKeepsSound(site, s, step);
  }

  lemma {:induction false} RunKeepsSound(site: Site, s: State, steps: seq<Step>)
    requires Sound(s) && Admissible(site, s, steps)
    ensures Sound(Run(site, s, steps))
    decreases |steps|
  {
    if steps != [] {
      NextKeepsSound(site, s, steps[0]);
      RunKeepsSound(site, Next(site, s, steps[0]), steps[1..]);
    }
  }

  predicate Accepts(site: Site, s: State, presented: Presented, ip: Option<string>, tid: nat) {
    Verify(site, s, presented, ip, tid, 0).1.Success?
  }

  // ----- what a run handed out, read off its steps -----

  ghost function IssuedIn(site: Site, s: State, steps: seq<Step>): set<Key>
    decreases |steps|
  {
    if steps == [] then {}
    else
      var rest := IssuedIn(site, Next(site, s, steps[0]), steps[1..]);
      match Issues(site, s, steps[0])
      case Some(key) => {key} + rest
      case None => rest
  }

  /** The payload handed out by the latest successful login of user `id` in the run. */
  ghost function LatestLogin(site: Site, s: State, steps: seq<Step>, id: nat): Option<Payload>
    decreases |steps|
  {
    if steps == [] then None
    else
      match LatestLogin(site, Next(site, s, steps[0]), steps[1..], id)
      case Some(p) => Some(p)
      case None => if LogsIn(site, s, steps[0], id) then Some(Issues(site, s, steps[0]).value.payload) else None
  }

  /** The newest key handed out to user `id` in the run. */
  ghost function NewestKey(site: Site, s: State, steps: seq<Step>, id: nat): Option<Key>
    decreases |steps|
  {
    if steps == [] then None
    else
      match NewestKey(site, Next(site, s, steps[0]), steps[1..], id)
      case Some(key) => Some(key)
      case None =>
        match Issues(site, s, steps[0])
        case Some(key) => if key.payload.id == id then Some(key) else None
        case None => None
  }

  lemma StepHistory(site: Site, s: State, step: Step, id: nat)
    ensures var h := Next(site, s, step).history;
            && h.issued == s.history.issued + (match Issues(site, s, step) case Some(k) => {k} case None => {})
            && (if LogsIn(site, s, step, id)
                then id in h.logins && h.logins[id] == Issues(site, s, step).value.payload
                else (id in h.logins <==> id in s.history.logins)
                     && (id in h.logins ==> h.logins[id] == s.history.logins[id]))
            && (if Issues(site, s, step).Some? && Issues(site, s, step).value.payload.id == id
                then id in h.newest && h.newest[id] == Issues(site, s, step).value
                else (id in h.newest <==> id in s.history.newest)
                     && (id in h.newest ==> h.newest[id] == s.history.newest[id]))
  {
    if step.StepLogin? {
      LoginIsAllOrNothing(site, s, step.req, step.ip, step.magic, step.signature);
    }
  }

  /** The recorded history is what the steps of the run handed out. */
  lemma {:induction false} HistoryIsTheRun(site: Site, s: State, steps: seq<Step>, id: nat)
    ensures var h := Run(site, s, steps).history;
            && h.issued == s.history.issued + IssuedIn(site, s, steps)
            && (match LatestLogin(site, s, steps, id)
                case Some(p) => id in h.logins && h.logins[id] == p
                case None => (id in h.logins <==> id in s.history.logins)
                             && (id in h.logins ==> h.logins[id] == s.history.logins[id]))
            && (match NewestKey(site, s, steps, id)
                case Some(k) => id in h.newest && h.newest[id] == k
                case None => (id in h.newest <==> id in s.history.newest)
                             && (id in h.newest ==> h.newest[id] == s.history.newest[id]))
    decreases |steps|
  {
    if steps != [] {
      StepHistory(site, s, steps[0], id);
      HistoryIsTheRun(site, Next(site, s, steps[0]), steps[1..], id);
    }
  }

  /** In every run from a fresh service, an accepted key was handed out in that run and carries
      the magic number and the client address of its user's latest login; the request comes
      from that address, and the key has not expired. */
  lemma AcceptedBelongsToLatestLogin(site: Site, s: State, steps: seq<Step>,
                                     presented: Presented, ip: Option<string>, tid: nat)
    requires Initial(s) && Admissible(site, s, steps)
    requires Accepts(site, Run(site, s, steps), presented, ip, tid)
    ensures presented.Readable? && presented.key in IssuedIn(site, s, steps)
    ensures var p := presented.key.payload;
            var login := LatestLogin(site, s, steps, p.id);
            && login.Some? && login.value.magic == p.magic && login.value.ip == p.ip && ip == Some(p.ip)
            && Run(site, s, steps).now <= p.expiry
  {
    InitialIsSound(s);
    RunKeepsSound(site, s, steps);
    var end := Run(site, s, steps);
    var key := presented.key;
    HistoryIsTheRun(site, s, steps, key.payload.id);
    assert StoredSound(end, key.payload.id);
    assert IssuedSound(end.history, key);
  }

  /** Does the store hold a session of the key's family? */
  predicate Live(s: State, key: Key) {
    key.payload.id in s.store && s.store[key.payload.id].key.payload.magic == key.payload.magic
  }

  lemma AcceptedIsLive(site: Site, s: State, key: Key, ip: Option<string>, tid: nat)
    requires Accepts(site, s, Readable(key), ip, tid)
    ensures Live(s, key)
  {
  }

  lemma NextKeepsDead(site: Site, s: State, step: Step, key: Key)
    requires Sound(s) && (step.StepLogin? ==> step.magic !in s.history.magics)
    requires key in s.history.issued && !Live(s, key)
    ensures key in Next(site, s, step).history.issued && !Live(Next(site, s, step), key)
  {
    assert IssuedSound(s.history, key);
    if step.StepLogin? {
      LoginIsAllOrNothing(site, s, step.req, step.ip, step.magic, step.signature);
    }
  }

  lemma {:induction false} DeadStaysDead(site: Site, s: State, steps: seq<Step>, key: Key)
    requires Sound(s) && Admissible(site, s, steps)
    requires key in s.history.issued && !Live(s, key)
    ensures !Live(Run(site, s, steps), key)
    decreases |steps|
  {
    if steps != [] {
      NextKeepsSound(site, s, steps[0]);
      NextKeepsDead(site, s, steps[0], key);
      DeadStaysDead(site, Next(site, s, steps[0]), steps[1..], key);
    }
  }

  lemma EndingKills(site: Site, s: State, step: Step, key: Key)
    requires Sound(s) && (step.StepLogin? ==> step.magic !in s.history.magics)
    requires key in s.history.issued
    requires AsksToEnd(site, s, step, key.payload.id) || LogsIn(site, s, step, key.payload.id)
    ensures key in Next(site, s, step).history.issued && !Live(Next(site, s, step), key)
  {
    assert IssuedSound(s.history, key);
    if step.StepLogin? {
      LoginIsAllOrNothing(site, s, step.req, step.ip, step.magic, step.signature);
    }
  }

  /** After a logout or a revocation was asked for by somebody who may, and after a new login, forced or not,
      no key handed out before is ever accepted again, whatever follows. */
  lemma EndedForEver(site: Site, s: State, step: Step, later: seq<Step>, key: Key, ip: Option<string>, tid: nat)
    requires Sound(s) && (step.StepLogin? ==> step.magic !in s.history.magics)
    requires Admissible(site, Next(site, s, step), later)
    requires key in s.history.issued
    requires AsksToEnd(site, s, step, key.payload.id) || LogsIn(site, s, step, key.payload.id)
    ensures !Accepts(site, Run(site, Next(site, s, step), later), Readable(key), ip, tid)
  {
    var end := Run(site, Next(site, s, step), later);
    NextKeepsSound(site, s, step);
    EndingKills(site, s, step, key);
    DeadStaysDead(site, Next(site, s, step), later, key);
    if Accepts(site, end, Readable(key), ip, tid) {
      AcceptedIsLive(site, end, key, ip, tid);
    }
  }

  /** A session disappears only by its own user's logout, by a revocation in its user's tenant, which for
      the built-in account only an administrator can ask for, or with its lease. */
  lemma WhoEndsSessions(site: Site, s: State, step: Step, id: nat)
    requires Sound(s) && id in s.store && id !in Next(site, s, step).store
    ensures match step
            case StepLogout(caller, _) => caller.id == id
            case StepRevoke(caller, tid, _) =>
              && id in s.db.users && s.db.users[id].tenant == tid
              && (id == site.adminUser ==> site.adminRole in caller.roles)
            case StepTick(seconds) => s.store[id].key.payload.expiry < s.now + seconds
            case StepLapse(i) => i == id && s.store[id].key.payload.expiry == s.now
            case _ => false
  {
    assert StoredSound(s, id);
    if step.StepLogin? {
      LoginIsAllOrNothing(site, s, step.req, step.ip, step.magic, step.signature);
    }
  }

  // ----- expiry -----

  /** Is user `id` neither logged out nor revoked during the run? */
  ghost predicate NeverEnded(site: Site, s: State, steps: seq<Step>, id: nat)
    decreases |steps|
  {
    steps == [] ||
    (!Ends(site, s, steps[0], id) && NeverEnded(site, Next(site, s, steps[0]), steps[1..], id))
  }

  /** The session is in the store, or its time is over. */
  ghost predicate OpenOrOver(s: State, id: nat) {
    id in s.history.newest && (id in s.store || s.history.newest[id].payload.expiry <= s.now)
  }

  lemma NextKeepsOpen(site: Site, s: State, step: Step, id: nat)
    requires Sound(s) && OpenOrOver(s, id) && !Ends(site, s, step, id)
    ensures OpenOrOver(Next(site, s, step), id)
  {
    if id in s.store {
      assert StoredSound(s, id);
    }
    StepHistory(site, s, step, id);
    if step.StepLogin? {
      LoginIsAllOrNothing(site, s, step.req, step.ip, step.magic, step.signature);
    }
  }

  lemma {:induction false} RunKeepsOpen(site: Site, s: State, steps: seq<Step>, id: nat)
    requires Sound(s) && Admissible(site, s, steps) && OpenOrOver(s, id) && NeverEnded(site, s, steps, id)
    ensures OpenOrOver(Run(site, s, steps), id)
    decreases |steps|
  {
    if steps != [] {
      NextKeepsSound(site, s, steps[0]);
      NextKeepsOpen(site, s, steps[0], id);
      RunKeepsOpen(site, Next(site, s, steps[0]), steps[1..], id);
    }
  }

  lemma OpenIsAccepted(site: Site, s: State, id: nat, tid: nat)
    requires Sound(s) && OpenOrOver(s, id) && s.now < s.history.newest[id].payload.expiry
    requires GetUser(site, s.db, tid, id).Pass?
    ensures var key := s.history.newest[id];
            && id in s.history.logins && key.payload.ip == s.history.logins[id].ip
            && Accepts(site, s, Readable(key), Some(key.payload.ip), tid)
  {
    assert StoredSound(s, id);
  }

  /** Strictly before it expires, the newest key of a user who was neither logged out nor revoked
      is accepted from the address of the latest login, as long as the user can be read. */
  lemma NewestKeyAccepted(site: Site, s: State, steps: seq<Step>, id: nat, tid: nat)
    requires Sound(s) && Admissible(site, s, steps)
    requires id in s.store && NeverEnded(site, s, steps, id)
    ensures id in Run(site, s, steps).history.newest
    ensures var end := Run(site, s, steps);
            var key := end.history.newest[id];
            end.now < key.payload.expiry && GetUser(site, end.db, tid, id).Pass? ==>
              && id in end.history.logins && key.payload.ip == end.history.logins[id].ip
              && Accepts(site, end, Readable(key), Some(key.payload.ip), tid)
  {
    assert StoredSound(s, id);
    RunKeepsOpen(site, s, steps, id);
    RunKeepsSound(site, s, steps);
    var end := Run(site, s, steps);
    if end.now < end.history.newest[id].payload.expiry && GetUser(site, end.db, tid, id).Pass? {
      OpenIsAccepted(site, end, id, tid);
    }
  }

  lemma OverIsRejected(site: Site, s: State, key: Key, ip: Option<string>, tid: nat)
    requires Sound(s)
    requires key.payload.id in s.history.newest ==> s.history.newest[key.payload.id].payload.expiry < s.now
    ensures !Accepts(site, s, Readable(key), ip, tid)
  {
    assert key.payload.id in s.store ==> StoredSound(s, key.payload.id);
  }

  /** Strictly after the newest key of a user has expired every key of that user is rejected,
      also an older one that was handed out under a longer timeout. */
  lemma RejectedAfterExpiry(site: Site, s: State, steps: seq<Step>, key: Key, ip: Option<string>, tid: nat)
    requires Initial(s) && Admissible(site, s, steps)
    requires match NewestKey(site, s, steps, key.payload.id)
             case Some(newest) => newest.payload.expiry < Run(site, s, steps).now
             case None => true
    ensures !Accepts(site, Run(site, s, steps), Readable(key), ip, tid)
  {
    InitialIsSound(s);
    RunKeepsSound(site, s, steps);
    HistoryIsTheRun(site, s, steps, key.payload.id);
    OverIsRejected(site, Run(site, s, steps), key, ip, tid);
  }
}
