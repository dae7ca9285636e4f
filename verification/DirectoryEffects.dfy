/** What single requests leave behind: who holds which roles, which columns survive, which passwords
    can come back. */
module DirectoryEffects {
  import opened Results
  import opened IdentityModel
  import opened Directory
  import opened DirectoryInvariants
  import opened Sessions
  import opened SessionSafety
  import opened TableSafety
  import TenantConfig
  import Decimal

  function GroupsOf(db: Db, id: nat): set<nat> {
    set g | g in db.groups && (id, g) in db.userGroups
  }

  function MembersOf(db: Db, g: nat): set<nat> {
    set u | u in db.users && (u, g) in db.userGroups
  }

  function Elements(s: seq<nat>): set<nat> {
    set x | x in s
  }

  /** A new user has exactly the roles and groups asked for, and nobody else's relations change. */
  lemma AddedUserRelations(site: Site, db: Db, tid: nat, f: UserForm, password: string)
    requires Consistent(site, db) && AddUser(site, db, tid, f, password).Success?
    ensures var after := AddUser(site, db, tid, f, password).value;
            && RolesOf(after, db.nextUser) == Elements(f.roles) && GroupsOf(after, db.nextUser) == Elements(f.groups)
            && forall id | id in db.users :: RolesOf(after, id) == RolesOf(db, id) && GroupsOf(after, id) == GroupsOf(db, id)
  {
    AddUserSaves(site, db, tid, f, password);
    SavedRelations(site, db, AddUser(site, db, tid, f, password).value, db.nextUser, true, f.roles, f.groups);
  }

  lemma SavedRelations(site: Site, db: Db, after: Db, id: nat, relate: bool, roles: seq<nat>, groups: seq<nat>)
    requires Saves(site, db, after, id, relate, roles, groups)
    ensures RolesOf(after, id) == if relate then Elements(roles) else RolesOf(db, id)
    ensures GroupsOf(after, id) == if relate then Elements(groups) else GroupsOf(db, id)
    ensures forall other | other != id ::
              RolesOf(after, other) == RolesOf(db, other) && GroupsOf(after, other) == GroupsOf(db, other)
  {
  }

  /** An update replaces a user's roles and groups only if an administrator or a manager asks for it and
      the user is not the built-in one; password data and the last login time survive, the login address
      and the failure record do not. */
  lemma UpdatedUser(site: Site, db: Db, tid: nat, caller: Caller, userId: nat, req: Option<UserForm>)
    requires Consistent(site, db) && UpdateUser(site, db, tid, caller, userId, req).Success?
    ensures req.Some? && userId in db.users
    ensures var after := UpdateUser(site, db, tid, caller, userId, req).value;
            var relate := userId != site.adminUser && (site.adminRole in caller.roles || site.managerRole in caller.roles);
            && RolesOf(after, userId) == (if relate then Elements(req.value.roles) else RolesOf(db, userId))
            && GroupsOf(after, userId) == (if relate then Elements(req.value.groups) else GroupsOf(db, userId))
            && userId in after.users
            && after.users[userId] == db.users[userId].(
                 profile := ProfileOf(req.value), lastLoggedInIp := None, failedCount := None, failedAt := None)
  {
    UpdateUserSaves(site, db, tid, caller, userId, req);
    var f := req.value;
    var after := UpdateUser(site, db, tid, caller, userId, req).value;
    SavedRelations(site, db, after, userId, MayRelate(site, caller, userId), f.roles, f.groups);
  }

  // ----- who may change a user -----

  /** May the request change user `id`? An update is for administrators, managers and the user himself,
      of the built-in account for administrators only; a password is changed by whoever knows the current
      one; managers reset no password of the built-in account; nobody deletes it. */
  predicate MayChange(site: Site, db: Db, op: Op, id: nat)
    requires id in db.users
  {
    match op
    case OpUpdateUser(tid, caller, userId, _) =>
      && userId == id && db.users[id].tenant == tid
      && (site.adminRole in caller.roles
          || (id != site.adminUser && (site.managerRole in caller.roles || caller.id == id)))
    case OpDeleteUser(tid, userId) => userId == id && db.users[id].tenant == tid && id != site.adminUser
    case OpUpdatePassword(caller, userId, current, _) =>
      userId == id && caller.id == id && current == db.users[id].password
    case OpResetPassword(tid, caller, userId, _) =>
      userId == id && db.users[id].tenant == tid && (id == site.adminUser ==> site.managerRole !in caller.roles)
    case _ => false
  }

  predicate OnGroup(op: Op) {
    op.OpAddGroup? || op.OpUpdateGroup? || op.OpDeleteGroup? || op.OpSetGroupUsers?
  }

  lemma GroupRequestsLeaveUsers(site: Site, db: Db, op: Op, now: int)
    requires OnGroup(op)
    ensures Apply(site, db, op, now).users == db.users
  {
  }

  /** Whatever the request, a user's row changes or goes away only if the request may do so. */
  lemma WhoMayChangeAUser(site: Site, db: Db, op: Op, now: int, id: nat)
    requires IdsKnown(db) && AdministratorFixed(site, db) && id in db.users
    ensures var after := Apply(site, db, op, now);
            (id in after.users ==> after.users[id] != db.users[id]) ==> MayChange(site, db, op, id)
  {
    if OnGroup(op) {
      GroupRequestsLeaveUsers(site, db, op, now);
    } else if Request(site, db, op, now).Success? {
      match op
      case OpAddUser(_, _, _) => assert id != db.nextUser;
      case OpUpdateUser(tid, caller, userId, req) => WhoMayUpdate(site, db, tid, caller, userId, req);
      case _ =>
    }
  }

  lemma WhoMayUpdate(site: Site, db: Db, tid: nat, caller: Caller, userId: nat, req: Option<UserForm>)
    requires UpdateUser(site, db, tid, caller, userId, req).Success?
    ensures IsAdmin(site, caller.roles) || (userId != site.adminUser && (IsManager(site, caller.roles) || caller.id == userId))
  {
  }

  /** An update answers a language it does not know with the name of the department parameter: exactly
      when the language is unknown and nothing checked before it is wrong, so that without the language
      the request would pass or fail on the time zone, which is checked last. */
  lemma BadLanguageNamesDepartment(site: Site, db: Db, tid: nat, caller: Caller, userId: nat, f: UserForm)
    ensures ValidateUserUpdate(site, db, tid, caller, userId, Some(f)) == Fail(UnavailableParameterValue("user.department"))
            <==> f.languageSet != "" && f.languageSet !in TenantConfig.LANGUAGES
                 && ValidateUserUpdate(site, db, tid, caller, userId, Some(f.(languageSet := "")))
                    in {Pass, Fail(LengthOverflow("user.timezone"))}
  {
    CheckErrors(db, f);
    assert MayRelate(site, caller, f.id) == MayRelate(site, caller, f.(languageSet := "").id);
  }

  lemma CheckErrors(db: Db, f: UserForm)
    ensures CheckGroups(db, f.tenant, f.groups, 0).Fail? ==> CheckGroups(db, f.tenant, f.groups, 0).error.InvalidElement?
    ensures CheckRoles(db, f.roles, 0).Fail? ==> CheckRoles(db, f.roles, 0).error.InvalidElement?
  {
    GroupErrors(db, f.tenant, f.groups, 0);
    RoleErrors(db, f.roles, 0);
  }

  lemma {:induction false} GroupErrors(db: Db, tenant: nat, groups: seq<nat>, from: nat)
    requires from <= |groups|
    ensures CheckGroups(db, tenant, groups, from).Fail? ==> CheckGroups(db, tenant, groups, from).error.InvalidElement?
    decreases |groups| - from
  {
    if from < |groups| {
      GroupErrors(db, tenant, groups, from + 1);
    }
  }

  lemma {:induction false} RoleErrors(db: Db, roles: seq<nat>, from: nat)
    requires from <= |roles|
    ensures CheckRoles(db, roles, from).Fail? ==> CheckRoles(db, roles, from).error.InvalidElement?
    decreases |roles| - from
  {
    if from < |roles| {
      RoleErrors(db, roles, from + 1);
    }
  }

  // ----- groups -----

  /** Setting the members of a group and then deleting it leaves it without members; the members of
      other groups stay. */
  lemma GroupMembersSet(site: Site, db: Db, tid: nat, groupId: nat, users: seq<nat>)
    requires Consistent(site, db) && SetGroupUsers(db, tid, groupId, users).Success?
    ensures var after := SetGroupUsers(db, tid, groupId, users).value;
            && MembersOf(after, groupId) == Elements(users)
            && (forall g | g != groupId :: MembersOf(after, g) == MembersOf(db, g))
            && (DeleteGroup(after, tid, groupId).Success? ==>
                  MembersOf(DeleteGroup(after, tid, groupId).value, groupId) == {})
  {
    assert forall u | u in users :: MemberUsable(db, tid, u);
  }

  /** No membership row names a deleted group. */
  ghost predicate DeletedEmpty(db: Db) {
    forall p | p in db.userGroups && p.1 in db.groups :: !db.groups[p.1].deleted
  }

  predicate NamesDeleted(db: Db, groups: seq<nat>) {
    exists g | g in groups :: g in db.groups && db.groups[g].deleted
  }

  /** Adding a user, or updating his groups, asks only whether a group exists and belongs to the tenant. */
  predicate Revives(site: Site, db: Db, op: Op, now: int) {
    && Request(site, db, op, now).Success?
    && match op
       case OpAddUser(_, form, _) => NamesDeleted(db, form.groups)
       case OpUpdateUser(_, caller, userId, req) =>
         && req.Some? && NamesDeleted(db, req.value.groups)
         && userId != site.adminUser && (site.adminRole in caller.roles || site.managerRole in caller.roles)
       case _ => false
  }

  /** What saving a user's relations does to deleted groups. */
  lemma SavedRevives(site: Site, db: Db, after: Db, id: nat, relate: bool, roles: seq<nat>, groups: seq<nat>)
    requires DeletedEmpty(db) && Saves(site, db, after, id, relate, roles, groups)
    ensures DeletedEmpty(after) <==> !(relate && NamesDeleted(db, groups))
  {
    if relate && NamesDeleted(db, groups) {
      var g :| g in groups && g in db.groups && db.groups[g].deleted;
      assert (id, g) in after.userGroups;
    }
  }

  lemma GroupRequestsKeepDeletedEmpty(site: Site, db: Db, op: Op, now: int)
    requires IdsKnown(db) && MembershipsJoin(db) && DeletedEmpty(db) && OnGroup(op)
    ensures DeletedEmpty(Apply(site, db, op, now))
  {
    if op.OpAddGroup? {
      assert db.nextGroup !in db.groups;
    }
  }

  /** Deleted groups stay without members exactly through the requests that do not revive one. */
  lemma DeletedEmptyIffNotRevived(site: Site, db: Db, op: Op, now: int)
    requires Consistent(site, db) && DeletedEmpty(db)
    ensures DeletedEmpty(Apply(site, db, op, now)) <==> !Revives(site, db, op, now)
  {
    if OnGroup(op) {
      GroupRequestsKeepDeletedEmpty(site, db, op, now);
    } else if Request(site, db, op, now).Success? {
      match op
      case OpAddUser(tid, form, hash) =>
        AddUserSaves(site, db, tid, form, hash);
        SavedRevives(site, db, Apply(site, db, op, now), db.nextUser, true, form.roles, form.groups);
      case OpUpdateUser(tid, caller, userId, req) =>
        UpdateUserSaves(site, db, tid, caller, userId, req);
        SavedRevives(site, db, Apply(site, db, op, now), userId, MayRelate(site, caller, userId),
                     req.value.roles, req.value.groups);
      case _ =>
    }
  }

  predicate StepRevives(site: Site, s: State, step: Step) {
    step.StepDirectory? && Revives(site, s.db, step.op, s.now)
  }

  predicate EverRevives(site: Site, s: State, steps: seq<Step>)
    decreases |steps|
  {
    steps != [] && (StepRevives(site, s, steps[0]) || EverRevives(site, Next(site, s, steps[0]), steps[1..]))
  }

  ghost predicate AlwaysDeletedEmpty(site: Site, s: State, steps: seq<Step>)
    decreases |steps|
  {
    DeletedEmpty(s.db) && (steps != [] ==> AlwaysDeletedEmpty(site, Next(site, s, steps[0]), steps[1..]))
  }

  lemma StepRevivesOrNot(site: Site, s: State, step: Step)
    requires Consistent(site, s.db) && DeletedEmpty(s.db)
    ensures DeletedEmpty(Next(site, s, step).db) <==> !StepRevives(site, s, step)
  {
    if step.StepDirectory? {
      DeletedEmptyIffNotRevived(site, s.db, step.op, s.now);
    } else if step.StepLogin? {
      LoginIsAllOrNothing(site, s, step.req, step.ip, step.magic, step.signature);
    }
  }

  /** All through a run of the service deleted groups have no members, if and only if no request of
      the run revives one. */
  lemma {:induction false} RunDeletedEmptyIffNeverRevived(site: Site, s: State, steps: seq<Step>)
    requires Consistent(site, s.db) && DeletedEmpty(s.db)
    ensures AlwaysDeletedEmpty(site, s, steps) <==> !EverRevives(site, s, steps)
    decreases |steps|
  {
    if steps != [] {
      StepRevivesOrNot(site, s, steps[0]);
      if !StepRevives(site, s, steps[0]) {
        NextKeepsConsistent(site, s, steps[0]);
        RunDeletedEmptyIffNeverRevived(site, Next(site, s, steps[0]), steps[1..]);
      }
    }
  }

  // ----- passwords -----

  function Reusable(db: Db, tenant: nat): Option<bool> {
    var cfg := TenantConfig.ConfigOf(db.configs, tenant);
    if TenantConfig.UserReuseOldPassword in cfg then Decimal.ParseBool(cfg[TenantConfig.UserReuseOldPassword])
    else Some(false)
  }

  /** Changing a password and changing it straight back works exactly when the tenant lets old passwords
      be used again. */
  lemma ChangingBack(db: Db, caller: Caller, userId: nat, first: string, second: string, now: int, later: int)
    requires UpdatePassword(db, caller, userId, first, second, now).Success?
    ensures var changed := UpdatePassword(db, caller, userId, first, second, now).value;
            var back := UpdatePassword(changed, caller, userId, second, first, later);
            if Reusable(db, caller.tenant) == Some(true) then
              back.Success? && userId in back.value.users && back.value.users[userId].password == first
            else
              back == Failure(NotReusableOldPassword)
  {
  }
}
