/** What every user and group request keeps. */
module DirectoryInvariants {
  import opened Results
  import opened IdentityModel
  import opened Directory

  ghost predicate IdsKnown(db: Db) {
    && (forall id | id in db.users :: 0 < id < db.nextUser)
    && (forall id | id in db.groups :: 0 < id < db.nextGroup)
    && 0 < db.nextUser && 0 < db.nextGroup
  }

  ghost predicate TenantsKnown(db: Db) {
    && (forall id | id in db.users :: db.users[id].tenant in db.tenants)
    && (forall id | id in db.groups :: db.groups[id].tenant in db.tenants)
  }

  /** Every membership row joins an existing user and an existing group of the same tenant. */
  ghost predicate MembershipsJoin(db: Db) {
    forall p | p in db.userGroups ::
      p.0 in db.users && p.1 in db.groups && db.users[p.0].tenant == db.groups[p.1].tenant
  }

  /** Every role row joins an existing user and an existing role. */
  ghost predicate RolesJoin(db: Db) {
    forall p | p in db.userRoles :: p.0 in db.users && p.1 in db.roles
  }

  ghost predicate AccountsUnique(db: Db) {
    forall i, j | i in db.users && j in db.users && db.users[i].account == db.users[j].account :: i == j
  }

  ghost predicate EmailsUnique(db: Db) {
    && (forall i | i in db.users :: db.users[i].profile.email != Some(""))
    && (forall i, j | i in db.users && j in db.users && db.users[i].profile.email.Some?
                      && db.users[i].profile.email == db.users[j].profile.email :: i == j)
  }

  ghost predicate GroupNamesUnique(db: Db) {
    forall i, j | i in db.groups && j in db.groups && !db.groups[i].deleted && !db.groups[j].deleted
                  && db.groups[i].tenant == db.groups[j].tenant && db.groups[i].name == db.groups[j].name :: i == j
  }

  /** The built-in account exists and is the sole holder of the administrator role. */
  ghost predicate AdministratorFixed(site: Site, db: Db) {
    && site.adminUser in db.users && site.adminRole in db.roles
    && (site.adminUser, site.adminRole) in db.userRoles
    && (forall p | p in db.userRoles && p.1 == site.adminRole :: p.0 == site.adminUser)
  }

  ghost predicate FailuresRecorded(db: Db) {
    forall i | i in db.users :: FailureRecorded(db.users[i])
  }

  /** A positive failure count always comes with the time of the last failure. */
  ghost predicate FailureRecorded(u: User) {
    u.failedCount.Some? && u.failedCount.value > 0 ==> u.failedAt.Some?
  }

  /** Every account name has between one and thirty characters. */
  ghost predicate AccountsFit(db: Db) {
    forall i | i in db.users :: 0 < |db.users[i].account| <= ACCOUNT_LENGTH
  }

  ghost predicate Shaped(db: Db) {
    IdsKnown(db) && TenantsKnown(db) && FailuresRecorded(db) && AccountsFit(db)
  }

  ghost predicate Related(site: Site, db: Db) {
    MembershipsJoin(db) && RolesJoin(db) && AdministratorFixed(site, db)
  }

  ghost predicate Unique(db: Db) {
    AccountsUnique(db) && EmailsUnique(db) && GroupNamesUnique(db)
  }

  ghost predicate Consistent(site: Site, db: Db) {
    Shaped(db) && Related(site, db) && Unique(db)
  }

  /** What may happen to the tables over time: a user keeps account and tenant, a group keeps
      its tenant, a deleted group stays deleted, groups are never removed, ids are never reused. */
  ghost predicate Evolves(before: Db, after: Db) {
    && before.nextUser <= after.nextUser && before.nextGroup <= after.nextGroup
    && before.tenants == after.tenants && before.roles == after.roles
    && (forall id | id in after.users && id in before.users ::
          after.users[id].account == before.users[id].account && after.users[id].tenant == before.users[id].tenant)
    && (forall id | id in after.users && id !in before.users :: before.nextUser <= id)
    && (forall id | id in before.groups ::
          id in after.groups && after.groups[id].tenant == before.groups[id].tenant
          && (before.groups[id].deleted ==> after.groups[id].deleted))
    && (forall id | id in after.groups && id !in before.groups :: before.nextGroup <= id)
  }

  /** A request either fails or leaves consistent tables that evolved from the old ones. */
  ghost predicate Kept(site: Site, db: Db, r: Result<Db, Error>) {
    r.Success? ==> Consistent(site, r.value) && Evolves(db, r.value)
  }

  lemma AccountFree(db: Db, account: string)
    requires FindByAccount(db, account).None?
    ensures forall id | id in db.users :: db.users[id].account != account
  {
    var hits := set id | id in db.users && db.users[id].account == account;
    assert hits == {};
    forall id | id in db.users
      ensures db.users[id].account != account
    {
      assert id in hits <==> db.users[id].account == account;
    }
  }

  /** Saving the row of user `id`, new or old, together with his relations or leaving them. */
  ghost predicate Saves(site: Site, db: Db, after: Db, id: nat, relate: bool, roles: seq<nat>, groups: seq<nat>) {
    && id in after.users && after.users == db.users[id := after.users[id]]
    && after.groups == db.groups && after.roles == db.roles && after.tenants == db.tenants
    && after.configs == db.configs && after.nextGroup == db.nextGroup
    && (if relate then
          && after.userRoles == Replaced(db.userRoles, id, roles)
          && after.userGroups == Replaced(db.userGroups, id, groups)
          && id != site.adminUser
          && (forall r | r in roles :: r in db.roles && r != site.adminRole)
          && (forall g | g in groups :: GroupUsable(db, after.users[id].tenant, g))
        else
          after.userRoles == db.userRoles && after.userGroups == db.userGroups && id in db.users)
    && (if id in db.users then
          && after.nextUser == db.nextUser
          && after.users[id].tenant == db.users[id].tenant && after.users[id].account == db.users[id].account
        else
          id == db.nextUser && after.nextUser == id + 1 && after.users[id].tenant in db.tenants)
  }

  lemma SavedRelated(site: Site, db: Db, after: Db, id: nat, relate: bool, roles: seq<nat>, groups: seq<nat>)
    requires Related(site, db) && Saves(site, db, after, id, relate, roles, groups)
    ensures Related(site, after)
  {
  }

  lemma SavedUnique(site: Site, db: Db, after: Db, id: nat, relate: bool, roles: seq<nat>, groups: seq<nat>)
    requires Unique(db) && Saves(site, db, after, id, relate, roles, groups)
    requires after.users[id].profile.email != Some("")
    requires forall i | i in db.users && i != id ::
               && db.users[i].account != after.users[id].account
               && (after.users[id].profile.email.Some? ==> db.users[i].profile.email != after.users[id].profile.email)
    ensures Unique(after)
  {
  }

  lemma SavedShaped(site: Site, db: Db, after: Db, id: nat, relate: bool, roles: seq<nat>, groups: seq<nat>)
    requires Shaped(db) && Saves(site, db, after, id, relate, roles, groups)
    requires FailureRecorded(after.users[id])
    requires id !in db.users ==> 0 < |after.users[id].account| <= ACCOUNT_LENGTH
    ensures Shaped(after) && Evolves(db, after)
  {
  }

  lemma AddUserSaves(site: Site, db: Db, tid: nat, f: UserForm, password: string)
    requires IdsKnown(db) && AdministratorFixed(site, db) && AddUser(site, db, tid, f, password).Success?
    ensures var after := AddUser(site, db, tid, f, password).value;
            && Saves(site, db, after, db.nextUser, true, f.roles, f.groups)
            && after.users[db.nextUser].account == f.account
            && after.users[db.nextUser].profile.email == Optional(f.email)
            && after.users[db.nextUser].failedCount == None
    ensures FindByAccount(db, f.account).None? && !EmailTaken(db, f.email, {})
    ensures 0 < |f.account| <= ACCOUNT_LENGTH
  {
    assert db.nextUser !in db.users;
    assert CheckGroups(db, f.tenant, f.groups, 0).Pass?;
    assert CheckRoles(db, f.roles, 0).Pass?;
  }

  lemma AddUserKeeps(site: Site, db: Db, tid: nat, f: UserForm, password: string)
    requires Consistent(site, db)
    ensures Kept(site, db, AddUser(site, db, tid, f, password))
  {
    if AddUser(site, db, tid, f, password).Failure? {
      return;
    }
    var after := AddUser(site, db, tid, f, password).value;
    AddUserSaves(site, db, tid, f, password);
    AccountFree(db, f.account);
    SavedRelated(site, db, after, db.nextUser, true, f.roles, f.groups);
    SavedUnique(site, db, after, db.nextUser, true, f.roles, f.groups);
    SavedShaped(site, db, after, db.nextUser, true, f.roles, f.groups);
  }

  lemma UpdateUserSaves(site: Site, db: Db, tid: nat, caller: Caller, userId: nat, req: Option<UserForm>)
    requires UpdateUser(site, db, tid, caller, userId, req).Success?
    ensures req.Some? && userId == req.value.id && userId in db.users
    ensures var f := req.value;
            var after := UpdateUser(site, db, tid, caller, userId, req).value;
            && Saves(site, db, after, userId, MayRelate(site, caller, userId), f.roles, f.groups)
            && after.users[userId].profile.email == Optional(f.email)
            && after.users[userId].failedCount == None
            && !EmailTaken(db, f.email, {userId})
  {
    var f := req.value;
    if MayRelate(site, caller, f.id) {
      assert CheckGroups(db, f.tenant, f.groups, 0).Pass?;
      assert CheckRoles(db, f.roles, 0).Pass?;
    }
  }

  lemma UpdateUserKeeps(site: Site, db: Db, tid: nat, caller: Caller, userId: nat, req: Option<UserForm>)
    requires Consistent(site, db)
    ensures Kept(site, db, UpdateUser(site, db, tid, caller, userId, req))
  {
    if UpdateUser(site, db, tid, caller, userId, req).Failure? {
      return;
    }
    var after := UpdateUser(site, db, tid, caller, userId, req).value;
    UpdateUserSaves(site, db, tid, caller, userId, req);
    var f := req.value;
    var relate := MayRelate(site, caller, userId);
    SavedRelated(site, db, after, userId, relate, f.roles, f.groups);
    SavedUnique(site, db, after, userId, relate, f.roles, f.groups);
    SavedShaped(site, db, after, userId, relate, f.roles, f.groups);
  }

  lemma DeleteUserKeeps(site: Site, db: Db, tid: nat, userId: nat)
    requires Consistent(site, db)
    ensures Kept(site, db, DeleteUser(site, db, tid, userId))
  {
    if DeleteUser(site, db, tid, userId).Failure? {
      return;
    }
    assert userId != site.adminUser;
  }

  lemma PasswordsKeep(site: Site, db: Db, id: nat, password: string, mustChange: bool, now: int)
    requires Consistent(site, db) && id in db.users
    ensures var after := db.(users := db.users[id := WithPassword(db.users[id], password, mustChange, now)]);
            Consistent(site, after) && Evolves(db, after)
  {
    var after := db.(users := db.users[id := WithPassword(db.users[id], password, mustChange, now)]);
    SavedRelated(site, db, after, id, false, [], []);
    SavedUnique(site, db, after, id, false, [], []);
    SavedShaped(site, db, after, id, false, [], []);
  }

  /** Saving the row of group `g`, new or old, and perhaps removing membership rows. */
  ghost predicate SavesGroup(db: Db, after: Db, g: nat) {
    && g in after.groups
    && after == db.(groups := db.groups[g := after.groups[g]], userGroups := after.userGroups,
                    nextGroup := after.nextGroup)
    && after.userGroups <= db.userGroups
    && (if g in db.groups then
          && after.nextGroup == db.nextGroup && after.groups[g].tenant == db.groups[g].tenant
          && (db.groups[g].deleted ==> after.groups[g].deleted)
        else
          g == db.nextGroup && after.nextGroup == g + 1 && after.groups[g].tenant in db.tenants)
  }

  lemma SavedGroup(site: Site, db: Db, after: Db, g: nat)
    requires Consistent(site, db) && SavesGroup(db, after, g)
    ensures Shaped(after) && Related(site, after) && Evolves(db, after)
    ensures AccountsUnique(after) && EmailsUnique(after)
  {
  }

  lemma SavedGroupName(db: Db, after: Db, g: nat)
    requires GroupNamesUnique(db) && SavesGroup(db, after, g)
    requires after.groups[g].deleted || !NameTaken(db, after.groups[g].tenant, after.groups[g].name, {g})
    ensures GroupNamesUnique(after)
  {
  }

  lemma AddGroupKeeps(site: Site, db: Db, tid: nat, req: Option<GroupForm>)
    requires Consistent(site, db)
    ensures Kept(site, db, AddGroup(db, tid, req))
  {
    var r := AddGroup(db, tid, req);
    if r.Success? {
      assert db.nextGroup !in db.groups;
      SavedGroup(site, db, r.value, db.nextGroup);
      SavedGroupName(db, r.value, db.nextGroup);
    }
  }

  lemma UpdateGroupKeeps(site: Site, db: Db, tid: nat, groupId: nat, req: Option<GroupForm>)
    requires Consistent(site, db)
    ensures Kept(site, db, UpdateGroup(db, tid, groupId, req))
  {
    var r := UpdateGroup(db, tid, groupId, req);
    if r.Success? {
      SavedGroup(site, db, r.value, groupId);
      SavedGroupName(db, r.value, groupId);
    }
  }

  lemma DeleteGroupKeeps(site: Site, db: Db, tid: nat, groupId: nat)
    requires Consistent(site, db)
    ensures Kept(site, db, DeleteGroup(db, tid, groupId))
  {
    var r := DeleteGroup(db, tid, groupId);
    if r.Success? {
      SavedGroup(site, db, r.value, groupId);
      SavedGroupName(db, r.value, groupId);
    }
  }

  lemma SetGroupUsersKeeps(site: Site, db: Db, tid: nat, groupId: nat, users: seq<nat>)
    requires Consistent(site, db)
    ensures Kept(site, db, SetGroupUsers(db, tid, groupId, users))
  {
    if SetGroupUsers(db, tid, groupId, users).Failure? {
      return;
    }
    assert forall u | u in users :: MemberUsable(db, tid, u);
  }

  lemma RequestKeeps(site: Site, db: Db, op: Op, now: int)
    requires Consistent(site, db)
    ensures Kept(site, db, Request(site, db, op, now))
  {
    match op
    case OpAddUser(tid, form, hash) => AddUserKeeps(site, db, tid, form, hash);
    case OpUpdateUser(tid, caller, userId, req) => UpdateUserKeeps(site, db, tid, caller, userId, req);
    case OpDeleteUser(tid, userId) => DeleteUserKeeps(site, db, tid, userId);
    case OpUpdatePassword(caller, userId, current, next) =>
      if UpdatePassword(db, caller, userId, current, next, now).Success? {
        PasswordsKeep(site, db, userId, next, false, now);
      }
    case OpResetPassword(tid, caller, userId, hash) =>
      if ResetPassword(site, db, tid, caller, userId, hash, now).Success? {
        PasswordsKeep(site, db, userId, hash, true, now);
      }
    case OpAddGroup(tid, group) => AddGroupKeeps(site, db, tid, group);
    case OpUpdateGroup(tid, groupId, group) => UpdateGroupKeeps(site, db, tid, groupId, group);
    case OpDeleteGroup(tid, groupId) => DeleteGroupKeeps(site, db, tid, groupId);
    case OpSetGroupUsers(tid, groupId, members) => SetGroupUsersKeeps(site, db, tid, groupId, members);
  }

  lemma EvolvesReflexive(db: Db)
    ensures Evolves(db, db)
  {
  }

  lemma ApplyKeeps(site: Site, db: Db, op: Op, now: int)
    requires Consistent(site, db)
    ensures Consistent(site, Apply(site, db, op, now)) && Evolves(db, Apply(site, db, op, now))
  {
    RequestKeeps(site, db, op, now);
    EvolvesReflexive(db);
  }

  /** The history of the tables composes: with ids below the counters, nothing that is gone comes back. */
  lemma EvolvesTransitive(a: Db, b: Db, c: Db)
    requires IdsKnown(a) && Evolves(a, b) && Evolves(b, c)
    ensures Evolves(a, c)
  {
  }

  // ----- tenants -----

  /** The tenant a request is made for; a password update goes by the caller instead. */
  predicate For(op: Op, tid: nat) {
    match op
    case OpUpdatePassword(caller, userId, _, _) => caller.tenant == tid && caller.id == userId
    case _ => op.tid == tid
  }

  /** Nothing of any other tenant differs: neither users and groups nor any row that joins them. */
  ghost predicate OthersUntouched(tid: nat, before: Db, after: Db) {
    && (forall id | id in before.users && before.users[id].tenant != tid ::
          id in after.users && after.users[id] == before.users[id])
    && (forall id | id in after.users && after.users[id].tenant != tid :: id in before.users)
    && (forall id | id in before.groups && before.groups[id].tenant != tid ::
          id in after.groups && after.groups[id] == before.groups[id])
    && (forall id | id in after.groups && after.groups[id].tenant != tid :: id in before.groups)
    && (forall p: (nat, nat) | p.0 in before.users && before.users[p.0].tenant != tid ::
          (p in after.userRoles <==> p in before.userRoles) && (p in after.userGroups <==> p in before.userGroups))
  }

  lemma SavedUserIsolated(site: Site, db: Db, after: Db, id: nat, relate: bool, roles: seq<nat>, groups: seq<nat>, tid: nat)
    requires Saves(site, db, after, id, relate, roles, groups) && after.users[id].tenant == tid
    ensures OthersUntouched(tid, db, after)
  {
  }

  lemma DeletedUserIsolated(site: Site, db: Db, tid: nat, userId: nat)
    requires DeleteUser(site, db, tid, userId).Success?
    ensures OthersUntouched(tid, db, DeleteUser(site, db, tid, userId).value)
  {
  }

  lemma SavedGroupIsolated(db: Db, after: Db, g: nat, tid: nat)
    requires MembershipsJoin(db) && SavesGroup(db, after, g) && after.groups[g].tenant == tid
    requires forall p | p in db.userGroups && p !in after.userGroups :: p.1 == g && g in db.groups
    ensures OthersUntouched(tid, db, after)
  {
  }

  lemma GroupMembersIsolated(db: Db, tid: nat, groupId: nat, users: seq<nat>)
    requires MembershipsJoin(db) && SetGroupUsers(db, tid, groupId, users).Success?
    ensures OthersUntouched(tid, db, SetGroupUsers(db, tid, groupId, users).value)
  {
    assert forall u | u in users :: MemberUsable(db, tid, u);
  }

  lemma PasswordIsolated(site: Site, db: Db, id: nat, password: string, mustChange: bool, now: int)
    requires id in db.users
    ensures OthersUntouched(db.users[id].tenant, db,
                            db.(users := db.users[id := WithPassword(db.users[id], password, mustChange, now)]))
  {
  }

  lemma UserRequestsAreIsolated(site: Site, db: Db, op: Op, tid: nat, now: int)
    requires Consistent(site, db) && For(op, tid) && Request(site, db, op, now).Success?
    requires op.OpAddUser? || op.OpUpdateUser? || op.OpDeleteUser?
    ensures OthersUntouched(tid, db, Request(site, db, op, now).value)
  {
    match op
    case OpAddUser(_, form, hash) =>
      AddUserSaves(site, db, tid, form, hash);
      SavedUserIsolated(site, db, Request(site, db, op, now).value, db.nextUser, true, form.roles, form.groups, tid);
    case OpUpdateUser(_, caller, userId, req) =>
      UpdateUserSaves(site, db, tid, caller, userId, req);
      SavedUserIsolated(site, db, Request(site, db, op, now).value, userId, MayRelate(site, caller, userId),
                        req.value.roles, req.value.groups, tid);
    case OpDeleteUser(_, userId) => DeletedUserIsolated(site, db, tid, userId);
  }

  lemma DeletedGroupIsolated(db: Db, tid: nat, groupId: nat)
    requires MembershipsJoin(db) && DeleteGroup(db, tid, groupId).Success?
    ensures OthersUntouched(tid, db, DeleteGroup(db, tid, groupId).value)
  {
    SavedGroupIsolated(db, DeleteGroup(db, tid, groupId).value, groupId, tid);
  }

  lemma GroupRequestsAreIsolated(site: Site, db: Db, op: Op, tid: nat, now: int)
    requires MembershipsJoin(db) && For(op, tid) && Request(site, db, op, now).Success?
    requires db.nextGroup !in db.groups
    requires op.OpAddGroup? || op.OpUpdateGroup? || op.OpDeleteGroup? || op.OpSetGroupUsers?
    ensures OthersUntouched(tid, db, Request(site, db, op, now).value)
  {
    var after := Request(site, db, op, now).value;
    match op
    case OpAddGroup(_, _) => SavedGroupIsolated(db, after, db.nextGroup, tid);
    case OpUpdateGroup(_, groupId, _) => SavedGroupIsolated(db, after, groupId, tid);
    case OpDeleteGroup(_, groupId) => DeletedGroupIsolated(db, tid, groupId);
    case OpSetGroupUsers(_, groupId, members) => GroupMembersIsolated(db, tid, groupId, members);
  }

  /** A request made for one tenant leaves every other tenant as it was, whoever makes it. */
  lemma TenantsAreIsolated(site: Site, db: Db, op: Op, tid: nat, now: int)
    requires Consistent(site, db) && For(op, tid)
    requires op.OpUpdatePassword? && op.userId in db.users ==> db.users[op.userId].tenant == tid
    ensures OthersUntouched(tid, db, Apply(site, db, op, now))
  {
    if Request(site, db, op, now).Success? {
      if op.OpAddUser? || op.OpUpdateUser? || op.OpDeleteUser? {
        UserRequestsAreIsolated(site, db, op, tid, now);
      } else if op.OpUpdatePassword? {
        PasswordIsolated(site, db, op.userId, op.next, false, now);
      } else if op.OpResetPassword? {
        PasswordIsolated(site, db, op.userId, op.hash, true, now);
      } else {
        GroupRequestsAreIsolated(site, db, op, tid, now);
      }
    }
  }
}
