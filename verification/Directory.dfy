/** Users, groups and memberships: what each request checks and what it leaves in the tables.
    Every operation here is one database transaction: it either fails, and then
    nothing changes, or gives the new tables. */
module Directory {
  import opened Results
  import opened IdentityModel
  import opened Utf8
  import TenantConfig
  import Decimal

  // ----- checks on single values -----

  function CheckProfile(site: Site, f: UserForm): Outcome<Error> {
    var name, email := f.name, f.email;
    :- Need(name != "", RequiredParameter("user.name"));
    :- Need(|name| <= NAME_LENGTH, LengthOverflow("user.name"));
    :- Need(email == "" || |email| <= EMAIL_LENGTH, LengthOverflow("user.email"));
    :- Need(email == "" || email in site.mailable, FormatMismatch("user.email"));
    Pass
  }

  /** An update reports a bad language under another parameter's name than an addition does. */
  function CheckDetails(f: UserForm, languageParam: string): Outcome<Error> {
    var language := f.languageSet;
    :- Need(|f.department| <= DEPARTMENT_LENGTH, LengthOverflow("user.department"));
    :- Need(|f.position| <= POSITION_LENGTH, LengthOverflow("user.position"));
    :- Need(|f.contact| <= CONTACT_LENGTH, LengthOverflow("user.contact"));
    :- Need(language == "" || language in TenantConfig.LANGUAGES, UnavailableParameterValue(languageParam));
    :- Need(|f.timezone| <= TIMEZONE_LENGTH, LengthOverflow("user.timezone"));
    Pass
  }

  predicate GroupUsable(db: Db, tenant: nat, g: nat) {
    g in db.groups && db.groups[g].tenant == tenant
  }

  /** The first group that cannot be used decides the error. */
  function CheckGroups(db: Db, tenant: nat, groups: seq<nat>, from: nat): (r: Outcome<Error>)
    requires from <= |groups|
    ensures r.Pass? <==> forall i | from <= i < |groups| :: GroupUsable(db, tenant, groups[i])
    decreases |groups| - from
  {
    if from == |groups| then Pass
    else if GroupUsable(db, tenant, groups[from]) then CheckGroups(db, tenant, groups, from + 1)
    else Fail(InvalidElement("user.group", from))
  }

  function CheckRoles(db: Db, roles: seq<nat>, from: nat): (r: Outcome<Error>)
    requires from <= |roles|
    ensures r.Pass? <==> forall i | from <= i < |roles| :: roles[i] in db.roles
    decreases |roles| - from
  {
    if from == |roles| then Pass
    else if roles[from] in db.roles then CheckRoles(db, roles, from + 1)
    else Fail(InvalidElement("user.role", from))
  }

  predicate EmailTaken(db: Db, email: string, except: set<nat>) {
    exists id | id in db.users :: id !in except && db.users[id].profile.email == Some(email)
  }

  predicate NameTaken(db: Db, tenant: nat, name: string, except: set<nat>) {
    exists id | id in db.groups :: id !in except && db.groups[id].tenant == tenant
                                   && db.groups[id].name == name && !db.groups[id].deleted
  }

  // ----- users -----

  function ValidateUserAdd(site: Site, db: Db, tid: nat, f: UserForm): Outcome<Error> {
    var account := f.account;
    :- Need(f.id == 0, InvalidParameterValue("user.id"));
    :- Need(f.tenant != 0, RequiredParameter("user.tenant.id"));
    :- Need(tid == f.tenant, UnauthorizedRequest);
    :- Need(!IsAdmin(site, f.roles), UnassignableRole);
    :- Need(tid in db.tenants, Unknown);
    :- Need(account != "", RequiredParameter("user.account"));
    :- Need(|account| <= ACCOUNT_LENGTH, LengthOverflow("user.account"));
    :- Need(FindByAccount(db, account).None?, ConflictParameterValue("user.account"));
    :- CheckProfile(site, f);
    :- Need(!EmailTaken(db, f.email, {}), ConflictParameterValue("user.email"));
    :- CheckGroups(db, f.tenant, f.groups, 0);
    :- CheckRoles(db, f.roles, 0);
    CheckDetails(f, "user.language_set")
  }

  /** `password` is the hash of the generated password. */
  function AddUser(site: Site, db: Db, tid: nat, f: UserForm, password: string): Result<Db, Error> {
    match ValidateUserAdd(site, db, tid, f)
    case Fail(e) => Failure(e)
    case Pass =>
      var id := db.nextUser;
      var row := RowOf(f).(password := password, passwordUpdateFlag := Some(true));
      Success(db.(users := db.users[id := row],
                  userRoles := Replaced(db.userRoles, id, f.roles),
                  userGroups := Replaced(db.userGroups, id, f.groups),
                  nextUser := id + 1))
  }

  /** Roles and groups of the built-in account never change, and only administrators
      and managers change those of anybody else. */
  predicate MayRelate(site: Site, caller: Caller, id: nat) {
    (IsAdmin(site, caller.roles) || IsManager(site, caller.roles)) && id != site.adminUser
  }

  function ValidateUserUpdate(site: Site, db: Db, tid: nat, caller: Caller, userId: nat, req: Option<UserForm>)
    : Outcome<Error>
  {
    var asAdmin, asManager := IsAdmin(site, caller.roles), IsManager(site, caller.roles);
    :- Need(req.Some?, RequiredParameter("user"));
    var f := req.value;
    :- Need(f.tenant != 0, RequiredParameter("user.tenant.id"));
    :- Need(userId == f.id, UnchangeableParameter("user.id"));
    :- Need(asAdmin || f.id != site.adminUser, UnauthorizedRequest);
    :- Need(f.id == site.adminUser || !IsAdmin(site, f.roles), UnassignableRole);
    :- Need(asAdmin || asManager || caller.id == f.id, UnauthorizedRequest);
    :- Need(f.id in db.users && db.users[f.id].tenant == tid, NotFoundUser);
    :- Need(f.tenant == db.users[f.id].tenant, UnchangeableParameter("user.tenant.id"));
    :- Need(f.account == db.users[f.id].account, UnchangeableParameter("user.account"));
    :- CheckProfile(site, f);
    :- Need(!EmailTaken(db, f.email, {f.id}), ConflictParameterValue("user.email"));
    :- if MayRelate(site, caller, f.id) then CheckGroups(db, f.tenant, f.groups, 0) else Pass;
    :- if MayRelate(site, caller, f.id) then CheckRoles(db, f.roles, 0) else Pass;
    CheckDetails(f, "user.department")
  }

  /** The row is rebuilt from the request; of the old row only the password data and
      the time of the last login are carried over. */
  function UpdateUser(site: Site, db: Db, tid: nat, caller: Caller, userId: nat, req: Option<UserForm>)
    : Result<Db, Error>
  {
    match ValidateUserUpdate(site, db, tid, caller, userId, req)
    case Fail(e) => Failure(e)
    case Pass =>
      var f := req.value;
      var t := db.users[f.id];
      var row := RowOf(f).(password := t.password, lastLoggedInAt := t.lastLoggedInAt,
                           passwordUpdatedAt := t.passwordUpdatedAt,
                           passwordUpdateFlag := t.passwordUpdateFlag, oldPassword := t.oldPassword);
      if f.tenant !in db.tenants then Failure(Unknown)
      else if MayRelate(site, caller, f.id) then
        Success(db.(users := db.users[f.id := row],
                    userRoles := Replaced(db.userRoles, f.id, f.roles),
                    userGroups := Replaced(db.userGroups, f.id, f.groups)))
      else
        Success(db.(users := db.users[f.id := row]))
  }

  function DeleteUser(site: Site, db: Db, tid: nat, userId: nat): Result<Db, Error> {
    if userId == 0 then Failure(RequiredParameter("user_id"))
    else if userId !in db.users || db.users[userId].tenant != tid then Failure(NotFoundUser)
    else if site.adminRole in RolesOf(db, userId) then Failure(UndeletableUser)
    else Success(db.(users := db.users - {userId},
                     userRoles := Replaced(db.userRoles, userId, []),
                     userGroups := Replaced(db.userGroups, userId, [])))
  }

  function WithPassword(row: User, password: string, mustChange: bool, now: int): User {
    row.(oldPassword := Some(row.password), passwordUpdateFlag := Some(mustChange),
         passwordUpdatedAt := Some(now), password := password)
  }

  function ValidatePasswordUpdate(db: Db, caller: Caller, userId: nat, current: string, next: string)
    : Outcome<Error>
  {
    var cfg := TenantConfig.ConfigOf(db.configs, caller.tenant);
    :- Need(userId != 0, RequiredParameter("user_id"));
    :- Need(caller.id == userId, InvalidParameterValue("user_id"));
    :- Need(next != "", RequiredParameter("new_password"));
    :- Need(current != "", RequiredParameter("current_password"));
    :- Need(ByteLength(next) <= PASSWORD_LENGTH, LengthOverflow("new_password"));
    :- Need(ByteLength(current) <= PASSWORD_LENGTH, LengthOverflow("current_password"));
    :- Need(userId in db.users, NotFoundUser);
    :- Need(db.users[userId].password == current, CurrentPasswordMismatch);
    var reusable := if TenantConfig.UserReuseOldPassword in cfg
                    then Decimal.ParseBool(cfg[TenantConfig.UserReuseOldPassword]) else Some(false);
    :- Need(reusable.Some?, Unknown);
    :- Need(reusable.value || db.users[userId].oldPassword != Some(next), NotReusableOldPassword);
    Pass
  }

  function UpdatePassword(db: Db, caller: Caller, userId: nat, current: string, next: string, now: int)
    : Result<Db, Error>
  {
    match ValidatePasswordUpdate(db, caller, userId, current, next)
    case Fail(e) => Failure(e)
    case Pass => Success(db.(users := db.users[userId := WithPassword(db.users[userId], next, false, now)]))
  }

  /** `password` is the hash of the generated password. */
  function ResetPassword(site: Site, db: Db, tid: nat, caller: Caller, userId: nat, password: string, now: int)
    : Result<Db, Error>
  {
    if userId == 0 then Failure(RequiredParameter("user_id"))
    else if userId !in db.users || db.users[userId].tenant != tid then Failure(NotFoundUser)
    else if IsManager(site, caller.roles) && userId == site.adminUser then Failure(UnauthorizedRequest)
    else Success(db.(users := db.users[userId := WithPassword(db.users[userId], password, true, now)]))
  }

  // ----- groups -----

  function ValidateGroupAdd(db: Db, tid: nat, req: Option<GroupForm>): Outcome<Error> {
    match req
    case None => Fail(RequiredParameter("group"))
    case Some(g) =>
      :- Need(g.id == 0, InvalidParameterValue("group.id"));
      :- Need(g.tenant != 0, RequiredParameter("group.tenant.id"));
      :- Need(tid == g.tenant, UnauthorizedRequest);
      :- Need(g.name != "", RequiredParameter("group.name"));
      :- Need(|g.name| <= NAME_LENGTH, LengthOverflow("group.name"));
      :- Need(!NameTaken(db, g.tenant, g.name, {}), ConflictParameterValue("group.name"));
      :- Need(|g.remarks| <= REMARKS_LENGTH, LengthOverflow("group.remarks"));
      :- Need(tid in db.tenants, NotFoundTenant);
      Pass
  }

  function AddGroup(db: Db, tid: nat, req: Option<GroupForm>): Result<Db, Error> {
    match ValidateGroupAdd(db, tid, req)
    case Fail(e) => Failure(e)
    case Pass => Success(db.(groups := db.groups[db.nextGroup := GroupRowOf(req.value)],
                             nextGroup := db.nextGroup + 1))
  }

  function ValidateGroupUpdate(db: Db, tid: nat, groupId: nat, req: Option<GroupForm>): Outcome<Error> {
    match req
    case None => Fail(RequiredParameter("group"))
    case Some(g) =>
      :- Need(g.tenant != 0, RequiredParameter("group.tenant.id"));
      :- Need(groupId == g.id, UnchangeableParameter("group.id"));
      :- Need(g.id in db.groups && db.groups[g.id].tenant == tid && !db.groups[g.id].deleted, NotFoundGroup);
      :- Need(g.tenant == db.groups[g.id].tenant, UnchangeableParameter("group.tenant.id"));
      :- Need(g.name != "", RequiredParameter("group.name"));
      :- Need(|g.name| <= NAME_LENGTH, LengthOverflow("group.name"));
      :- Need(!NameTaken(db, g.tenant, g.name, {g.id}), ConflictParameterValue("group.name"));
      :- Need(|g.remarks| <= REMARKS_LENGTH, LengthOverflow("group.remarks"));
      Pass
  }

  function UpdateGroup(db: Db, tid: nat, groupId: nat, req: Option<GroupForm>): Result<Db, Error> {
    match ValidateGroupUpdate(db, tid, groupId, req)
    case Fail(e) => Failure(e)
    case Pass =>
      if tid !in db.tenants then Failure(NotFoundTenant)
      else Success(db.(groups := db.groups[req.value.id := GroupRowOf(req.value)]))
  }

  function DeleteGroup(db: Db, tid: nat, groupId: nat): Result<Db, Error> {
    if groupId == 0 then Failure(RequiredParameter("group_id"))
    else if groupId !in db.groups then Failure(NotFoundGroup)
    else if db.groups[groupId].name == "default" then Failure(UndeletableGroup)
    else if db.groups[groupId].deleted then Failure(AlreadyDeletedGroup)
    else if tid != db.groups[groupId].tenant then Failure(UnauthorizedRequest)
    else Success(db.(userGroups := MembersReplaced(db.userGroups, groupId, []),
                     groups := db.groups[groupId := db.groups[groupId].(deleted := true)]))
  }

  /** The membership rows after all rows of group `g` have been replaced. */
  function MembersReplaced(relation: set<(nat, nat)>, g: nat, users: seq<nat>): (r: set<(nat, nat)>)
    ensures forall p :: p in r <==> (p.1 != g && p in relation) || (p.1 == g && p.0 in users)
  {
    (set p | p in relation && p.1 != g) + (set u | u in users :: (u, g))
  }

  predicate MemberUsable(db: Db, tenant: nat, u: nat) {
    u != 0 && u in db.users && db.users[u].tenant == tenant
  }

  function CheckMembers(db: Db, tenant: nat, users: seq<nat>, from: nat): (r: Outcome<Error>)
    requires from <= |users|
    ensures r.Pass? <==> forall i | from <= i < |users| :: MemberUsable(db, tenant, users[i])
    decreases |users| - from
  {
    if from == |users| then Pass
    else if MemberUsable(db, tenant, users[from]) then CheckMembers(db, tenant, users, from + 1)
    else if users[from] == 0 then Fail(RequiredParameter("user.id"))
    else Fail(InvalidElement("users", from))
  }

  function ValidateGroupUserSet(db: Db, tid: nat, groupId: nat, users: seq<nat>): Outcome<Error> {
    var live := groupId in db.groups && !db.groups[groupId].deleted;
    :- Need(groupId != 0, RequiredParameter("group_id"));
    :- Need(live, NotFoundGroup);
    :- Need(tid == db.groups[groupId].tenant, UnauthorizedRequest);
    :- CheckMembers(db, tid, users, 0);
    :- Need(tid in db.tenants, NotFoundTenant);
    Pass
  }

  function SetGroupUsers(db: Db, tid: nat, groupId: nat, users: seq<nat>): Result<Db, Error> {
    match ValidateGroupUserSet(db, tid, groupId, users)
    case Fail(e) => Failure(e)
    case Pass => Success(db.(userGroups := MembersReplaced(db.userGroups, groupId, users)))
  }

  // ----- one request after another -----

  datatype Op =
    | OpAddUser(tid: nat, form: UserForm, hash: string)
    | OpUpdateUser(tid: nat, caller: Caller, userId: nat, req: Option<UserForm>)
    | OpDeleteUser(tid: nat, userId: nat)
    | OpUpdatePassword(caller: Caller, userId: nat, current: string, next: string)
    | OpResetPassword(tid: nat, caller: Caller, userId: nat, hash: string)
    | OpAddGroup(tid: nat, group: Option<GroupForm>)
    | OpUpdateGroup(tid: nat, groupId: nat, group: Option<GroupForm>)
    | OpDeleteGroup(tid: nat, groupId: nat)
    | OpSetGroupUsers(tid: nat, groupId: nat, members: seq<nat>)

  function Request(site: Site, db: Db, op: Op, now: int): Result<Db, Error> {
    match op
    case OpAddUser(tid, form, hash) => AddUser(site, db, tid, form, hash)
    case OpUpdateUser(tid, caller, userId, req) => UpdateUser(site, db, tid, caller, userId, req)
    case OpDeleteUser(tid, userId) => DeleteUser(site, db, tid, userId)
    case OpUpdatePassword(caller, userId, current, next) => UpdatePassword(db, caller, userId, current, next, now)
    case OpResetPassword(tid, caller, userId, hash) => ResetPassword(site, db, tid, caller, userId, hash, now)
    case OpAddGroup(tid, group) => AddGroup(db, tid, group)
    case OpUpdateGroup(tid, groupId, group) => UpdateGroup(db, tid, groupId, group)
    case OpDeleteGroup(tid, groupId) => DeleteGroup(db, tid, groupId)
    case OpSetGroupUsers(tid, groupId, members) => SetGroupUsers(db, tid, groupId, members)
  }

  /** A failed request is rolled back. */
  function Apply(site: Site, db: Db, op: Op, now: int): Db {
    match Request(site, db, op, now)
    case Success(next) => next
    case Failure(_) => db
  }
}
