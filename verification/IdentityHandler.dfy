/** The identity service as an object: requests work on a copy of the tables and
    commit it only when they succeed; the session store is changed at once. */
module IdentityHandlers {
  import opened Results
  import opened IdentityModel
  import opened Sessions
  import Directory
  import TenantConfig
  import Decimal

  // ----- loops over relations -----

  /** All role rows of the user are deleted, then one row per role is saved. */
  method UpdateUserRoleRelations(db: Db, id: nat, roles: seq<nat>) returns (after: Db)
    ensures after == db.(userRoles := Replaced(db.userRoles, id, roles))
  {
    var rows := set p | p in db.userRoles && p.0 != id;
    for i := 0 to |roles|
      invariant forall p :: p in rows <==> (p.0 != id && p in db.userRoles) || (p.0 == id && p.1 in roles[..i])
    {
      rows := rows + {(id, roles[i])};
    }
    assert roles[..|roles|] == roles;
    assert rows == Replaced(db.userRoles, id, roles);
    after := db.(userRoles := rows);
  }

  method UpdateUserGroupRelations(db: Db, id: nat, groups: seq<nat>) returns (after: Db)
    ensures after == db.(userGroups := Replaced(db.userGroups, id, groups))
  {
    var rows := set p | p in db.userGroups && p.0 != id;
    for i := 0 to |groups|
      invariant forall p :: p in rows <==> (p.0 != id && p in db.userGroups) || (p.0 == id && p.1 in groups[..i])
    {
      rows := rows + {(id, groups[i])};
    }
    assert groups[..|groups|] == groups;
    assert rows == Replaced(db.userGroups, id, groups);
    after := db.(userGroups := rows);
  }

  method ReplaceGroupMembers(db: Db, groupId: nat, users: seq<nat>) returns (after: Db)
    ensures after == db.(userGroups := Directory.MembersReplaced(db.userGroups, groupId, users))
  {
    var rows := set p | p in db.userGroups && p.1 != groupId;
    for i := 0 to |users|
      invariant forall p :: p in rows <==> (p.1 != groupId && p in db.userGroups) || (p.1 == groupId && p.0 in users[..i])
    {
      rows := rows + {(users[i], groupId)};
    }
    assert users[..|users|] == users;
    assert rows == Directory.MembersReplaced(db.userGroups, groupId, users);
    after := db.(userGroups := rows);
  }

  /** Written key by key, each row saved over an older one of the same key. */
  method SaveSettings(before: TenantConfig.Config, s: TenantConfig.Settings) returns (cfg: TenantConfig.Config)
    requires TenantConfig.Complete(s)
    ensures cfg == before + TenantConfig.Written(s)
  {
    cfg := before;
    cfg := cfg[TenantConfig.GlobalLanguageSet := s.languageSet.value];
    cfg := cfg[TenantConfig.GlobalTimeZone := s.timezone.value];
    cfg := cfg[TenantConfig.UserPasswordChangeCycle := Decimal.Itoa(Decimal.ToInt64(s.passwordChangeCycle.value))];
    cfg := cfg[TenantConfig.UserReuseOldPassword := Decimal.FormatBool(s.reuseOldPassword.value)];
    cfg := cfg[TenantConfig.UserSessionTimeout := Decimal.Itoa(Decimal.ToInt64(s.sessionTimeout.value))];
    cfg := cfg[TenantConfig.UserLoginRestrictionEnable := Decimal.FormatBool(s.restrictionEnable.value)];
    if s.restrictionEnable.value {
      cfg := cfg[TenantConfig.UserLoginRestrictionTryCount := Decimal.Itoa(Decimal.ToInt64(s.tryCount.value))];
      cfg := cfg[TenantConfig.UserLoginRestrictionTime := Decimal.Itoa(s.restrictionTime.value)];
    }
  }

  class IdentityHandler {
    const site: Site
    var db: Db
    var store: map<nat, Entry>
    var now: int
    var history: History

    constructor (site: Site, db: Db, now: int)
      ensures this.site == site && State() == Sessions.State(db, map[], now, History({}, {}, map[], map[]))
    {
      this.site, this.db, this.store, this.now := site, db, map[], now;
      this.history := History({}, {}, map[], map[]);
    }

    function State(): State
      reads this
    {
      Sessions.State(db, store, now, history)
    }

    // ----- sessions -----

    /** The row is saved in the working tables before the session is tried for; when there is none,
        the tables are not committed. Only a wrong password leaves a trace, written afterwards. */
    method Login(req: LoginRequest, ip: Option<string>, magic: nat, signature: nat) returns (reply: Result<Key, Error>)
      modifies this
      ensures (State(), reply) == Sessions.Login(site, old(State()), req, ip, magic, signature)
    {
      reply := LoginTransaction(req, ip, magic, signature);
      if reply.Failure? && reply.error == IncorrectPassword {
        RecordFailedLogin(req.account);
      }
    }

    method LoginTransaction(req: LoginRequest, ip: Option<string>, magic: nat, signature: nat)
      returns (reply: Result<Key, Error>)
      modifies this
      ensures var (after, r) := LoginBody(old(State()), req, ip, magic, signature);
              reply == r && State() == (if r.Success? then after else after.(db := old(db)))
    {
      var saved := LoginRow(req, ip);
      if saved.Failure? {
        return Failure(saved.error);
      }
      var (tx, id) := saved.value;
      reply := OpenSession(tx, id, ip.value, magic, signature, req.force);
      if reply.Success? {
        db := tx;
      }
    }

    /** The working tables with the login row saved, and whose row it is. */
    method LoginRow(req: LoginRequest, ip: Option<string>) returns (saved: Result<(Db, nat), Error>)
      ensures saved == LoginUser(db, req, ip, now)
      ensures saved.Success? ==> ip.Some? && saved.value.1 in saved.value.0.users
    {
      var valid := ValidateLogin(db, req, now);
      if valid.Failure? {
        return Failure(valid.error);
      }
      var id := valid.value;
      if ip.None? {
        return Failure(InvalidRequest);
      }
      var row := StampLogin(db.users[id], ip.value);
      var tx := db.(users := db.users[id := row]);
      if row.tenant !in tx.tenants {
        return Failure(NotFoundTenant);
      }
      return Success((tx, id));
    }

    method StampLogin(user: User, ip: string) returns (row: User)
      ensures row == LoggedInRow(db, user, ip, now)
    {
      row := user.(lastLoggedInAt := Some(now), lastLoggedInIp := Some(ip));
      if row.failedCount.Some? {
        row := row.(failedCount := Some(0));
      }
      var cycle := PasswordChangeCycle(TenantConfig.ConfigOf(db.configs, row.tenant));
      if row.passwordUpdatedAt.None? {
        row := row.(passwordUpdatedAt := Some(0));
      }
      if row.passwordUpdateFlag.None? {
        row := row.(passwordUpdateFlag := Some(false));
      }
      if cycle != 0 && now - row.passwordUpdatedAt.value >= SECONDS_IN_A_DAY * cycle {
        row := row.(passwordUpdateFlag := Some(true));
      }
    }

    /** An older entry of the user is deleted first when the login is forced. */
    method OpenSession(tx: Db, id: nat, ip: string, magic: nat, signature: nat, force: bool)
      returns (reply: Result<Key, Error>)
      requires id in tx.users
      modifies this`store, this`history
      ensures match NewSession(old(State()).(db := tx), tx.users[id].tenant, id, ip, magic, signature, force)
              case Success((after, key)) => reply == Success(key) && State().(db := tx) == after
              case Failure(e) => reply == Failure(e) && State() == old(State())
    {
      if id in store {
        if !force {
          return Failure(AlreadyLogin);
        }
        store := store - {id};
      }
      var tenant := tx.users[id].tenant;
      var key := NewKey(tx, tenant, id, magic, ip, signature, now);
      store := store[id := NewEntry(tx, tenant, key, now)];
      history := Remember(history, key).(magics := history.magics + {magic}, logins := history.logins[id := key.payload]);
      assert store == old(store)[id := store[id]];
      return Success(key);
    }

    method RecordFailedLogin(account: string)
      modifies this`db
      ensures db == RecordFailure(site, old(db), account, now)
    {
      var found := FindByAccount(db, account);
      if found.Some? {
        var row := db.users[found.value];
        if row.failedCount.None? {
          row := row.(failedCount := Some(0));
        }
        row := row.(failedAt := Some(now), failedCount := Some(row.failedCount.value + 1));
        if row.failedCount.value <= site.counterMax {
          db := db.(users := db.users[found.value := row]);
        }
      }
    }

    method VerifySession(presented: Presented, ip: Option<string>, tid: nat, signature: nat)
      returns (reply: Result<Key, Error>)
      modifies this`store, this`history
      ensures (State(), reply) == Verify(site, old(State()), presented, ip, tid, signature)
    {
      var checked := CheckSession(State(), presented, ip);
      if checked.Failure? {
        return Failure(checked.error);
      }
      var read := GetUser(site, db, tid, checked.value.id);
      if read.Fail? {
        return Failure(read.error);
      }
      var id := checked.value.id;
      var tenant := db.users[id].tenant;
      var key := NewKey(db, tenant, id, checked.value.magic, ip.value, signature, now);
      store := store[id := NewEntry(db, tenant, key, now)];
      history := Remember(history, key);
      return Success(key);
    }

    method Logout(caller: Caller, presented: Presented) returns (r: Outcome<Error>)
      modifies this`store
      ensures (State(), r) == Sessions.Logout(old(State()), caller, presented)
    {
      if presented.Malformed? {
        return Fail(InvalidSession);
      }
      if presented.Unreadable? {
        return Fail(Unknown);
      }
      if presented.NullPayload? {
        return Fail(NilDereference);
      }
      if caller.id != presented.key.payload.id {
        return Fail(InvalidParameterValue("session"));
      }
      r := DeleteSession(presented.key.payload.id);
    }

    method RevokeSession(caller: Caller, tid: nat, presented: Presented) returns (r: Outcome<Error>)
      modifies this`store
      ensures (State(), r) == Revoke(site, old(State()), caller, tid, presented)
    {
      if presented.Malformed? {
        return Fail(InvalidSession);
      }
      if presented.Unreadable? {
        return Fail(Unknown);
      }
      if presented.NullPayload? {
        return Fail(NilDereference);
      }
      var id := presented.key.payload.id;
      if !IsAdmin(site, caller.roles) && site.adminUser == id {
        return Fail(InvalidParameterValue("session"));
      }
      if id !in db.users || db.users[id].tenant != tid {
        return Fail(InvalidParameterValue("session"));
      }
      r := DeleteSession(id);
    }

    method DeleteSession(id: nat) returns (r: Outcome<Error>)
      modifies this`store
      ensures (State(), r) == Sessions.DeleteSession(old(State()), id)
    {
      if id !in store {
        return Fail(UnknownSession);
      }
      store := store - {id};
      return Pass;
    }

    /** What was written is read back for the answer, within the transaction. */
    method SetConfig(tid: nat, req: Option<TenantConfig.Settings>) returns (r: Result<TenantConfig.Settings, Error>)
      modifies this`db
      ensures match TenantConfig.Set(site.zones, old(db).configs, tid, req)
              case Success(configs) => r == Success(TenantConfig.Effective(req.value)) && db == old(db).(configs := configs)
              case Failure(e) => r == Failure(e) && db == old(db)
    {
      var valid := TenantConfig.Validate(site.zones, req);
      if valid.Fail? {
        return Failure(valid.error);
      }
      TenantConfig.AcceptedInRange(site.zones, req.value);
      TenantConfig.RoundTrip(site.zones, db.configs, tid, req.value);
      var cfg := SaveSettings(TenantConfig.ConfigOf(db.configs, tid), req.value);
      var tx := db.(configs := db.configs[tid := cfg]);
      r := TenantConfig.Get(TenantConfig.ConfigOf(tx.configs, tid));
      if r.Success? {
        db := tx;
      }
    }

    // ----- directory -----

    /** What a directory request leaves: the tables of the request on success, the old ones otherwise. */
    twostate predicate Committed(new r: Outcome<Error>, new spec: Result<Db, Error>)
      reads this
    {
      match spec
      case Success(after) => r.Pass? && db == after
      case Failure(e) => r == Fail(e) && db == old(db)
    }

    /** A request without a user is not caught: the first check looks into it. */
    method AddUser(tid: nat, req: Option<UserForm>, password: string) returns (r: Outcome<Error>)
      modifies this`db
      ensures match req
              case None => r == Fail(NilDereference) && db == old(db)
              case Some(f) => Committed(r, Directory.AddUser(site, old(db), tid, f, password))
    {
      if req.None? {
        return Fail(NilDereference);
      }
      var f := req.value;
      r := Directory.ValidateUserAdd(site, db, tid, f);
      if r.Pass? {
        var id := db.nextUser;
        var row := RowOf(f).(password := password, passwordUpdateFlag := Some(true));
        var tx := db.(users := db.users[id := row], nextUser := id + 1);
        tx := UpdateUserRoleRelations(tx, id, f.roles);
        tx := UpdateUserGroupRelations(tx, id, f.groups);
        db := tx;
      }
    }

    method UpdateUser(tid: nat, caller: Caller, userId: nat, req: Option<UserForm>) returns (r: Outcome<Error>)
      modifies this`db
      ensures Committed(r, Directory.UpdateUser(site, old(db), tid, caller, userId, req))
    {
      r := Directory.ValidateUserUpdate(site, db, tid, caller, userId, req);
      if r.Pass? {
        var f := req.value;
        var t := db.users[f.id];
        var row := RowOf(f);
        row := row.(password := t.password);
        row := row.(lastLoggedInAt := t.lastLoggedInAt);
        row := row.(passwordUpdatedAt := t.passwordUpdatedAt);
        row := row.(passwordUpdateFlag := t.passwordUpdateFlag);
        row := row.(oldPassword := t.oldPassword);
        var tx := db.(users := db.users[f.id := row]);
        if Directory.MayRelate(site, caller, f.id) {
          tx := UpdateUserRoleRelations(tx, f.id, f.roles);
          tx := UpdateUserGroupRelations(tx, f.id, f.groups);
        }
        if f.tenant !in tx.tenants {
          return Fail(Unknown);
        }
        db := tx;
      }
    }

    method DeleteUser(tid: nat, userId: nat) returns (r: Outcome<Error>)
      modifies this`db
      ensures Committed(r, Directory.DeleteUser(site, old(db), tid, userId))
    {
      if userId == 0 {
        return Fail(RequiredParameter("user_id"));
      }
      if userId !in db.users || db.users[userId].tenant != tid {
        return Fail(NotFoundUser);
      }
      if site.adminRole in RolesOf(db, userId) {
        return Fail(UndeletableUser);
      }
      var tx := UpdateUserGroupRelations(db, userId, []);
      tx := UpdateUserRoleRelations(tx, userId, []);
      db := tx.(users := tx.users - {userId});
      return Pass;
    }

    method UpdateUserPassword(caller: Caller, userId: nat, current: string, next: string) returns (r: Outcome<Error>)
      modifies this`db
      ensures Committed(r, Directory.UpdatePassword(old(db), caller, userId, current, next, now))
    {
      r := Directory.ValidatePasswordUpdate(db, caller, userId, current, next);
      if r.Pass? {
        var user := db.users[userId];
        user := user.(oldPassword := Some(user.password));
        user := user.(passwordUpdateFlag := Some(false), passwordUpdatedAt := Some(now));
        user := user.(password := next);
        db := db.(users := db.users[userId := user]);
      }
    }

    method ResetUserPassword(tid: nat, caller: Caller, userId: nat, password: string) returns (r: Outcome<Error>)
      modifies this`db
      ensures Committed(r, Directory.ResetPassword(site, old(db), tid, caller, userId, password, now))
    {
      if userId == 0 {
        return Fail(RequiredParameter("user_id"));
      }
      if userId !in db.users || db.users[userId].tenant != tid {
        return Fail(NotFoundUser);
      }
      if IsManager(site, caller.roles) && userId == site.adminUser {
        return Fail(UnauthorizedRequest);
      }
      var user := db.users[userId];
      user := user.(oldPassword := Some(user.password));
      user := user.(passwordUpdateFlag := Some(true), passwordUpdatedAt := Some(now));
      user := user.(password := password);
      db := db.(users := db.users[userId := user]);
      return Pass;
    }

    method AddGroup(tid: nat, req: Option<GroupForm>) returns (r: Outcome<Error>)
      modifies this`db
      ensures Committed(r, Directory.AddGroup(old(db), tid, req))
    {
      r := Directory.ValidateGroupAdd(db, tid, req);
      if r.Pass? {
        db := db.(groups := db.groups[db.nextGroup := GroupRowOf(req.value)], nextGroup := db.nextGroup + 1);
      }
    }

    method UpdateGroup(tid: nat, groupId: nat, req: Option<GroupForm>) returns (r: Outcome<Error>)
      modifies this`db
      ensures Committed(r, Directory.UpdateGroup(old(db), tid, groupId, req))
    {
      r := Directory.ValidateGroupUpdate(db, tid, groupId, req);
      if r.Pass? {
        if tid !in db.tenants {
          return Fail(NotFoundTenant);
        }
        db := db.(groups := db.groups[req.value.id := GroupRowOf(req.value)]);
      }
    }

    method DeleteGroup(tid: nat, groupId: nat) returns (r: Outcome<Error>)
      modifies this`db
      ensures Committed(r, Directory.DeleteGroup(old(db), tid, groupId))
    {
      if groupId == 0 {
        return Fail(RequiredParameter("group_id"));
      }
      if groupId !in db.groups {
        return Fail(NotFoundGroup);
      }
      var group := db.groups[groupId];
      if group.name == "default" {
        return Fail(UndeletableGroup);
      }
      if group.deleted {
        return Fail(AlreadyDeletedGroup);
      }
      if tid != group.tenant {
        return Fail(UnauthorizedRequest);
      }
      var tx := ReplaceGroupMembers(db, groupId, []);
      group := group.(deleted := true);
      db := tx.(groups := tx.groups[groupId := group]);
      return Pass;
    }

    method SetGroupUsers(tid: nat, groupId: nat, users: seq<nat>) returns (r: Outcome<Error>)
      modifies this`db
      ensures Committed(r, Directory.SetGroupUsers(old(db), tid, groupId, users))
    {
      r := Directory.ValidateGroupUserSet(db, tid, groupId, users);
      if r.Pass? {
        db := ReplaceGroupMembers(db, groupId, users);
      }
    }
  }
}
