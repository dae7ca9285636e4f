/** Exactly when user and group requests succeed, and what they leave, column by column. */
module DirectoryRequests {
  import opened Results
  import opened IdentityModel
  import opened Utf8
  import opened Directory
  import opened DirectoryInvariants
  import TenantConfig
  import Decimal

  // ----- users -----

  predicate RightProfile(site: Site, f: UserForm) {
    && f.name != "" && |f.name| <= 255
    && (f.email != "" ==> |f.email| <= 320 && f.email in site.mailable)
  }

  predicate RightDetails(f: UserForm) {
    && |f.department| <= 255 && |f.position| <= 255 && |f.contact| <= 20 && |f.timezone| <= 35
    && (f.languageSet == "" || f.languageSet == "eng" || f.languageSet == "kor")
  }

  /** Nobody but perhaps `self` has this mail address. */
  predicate MailFree(db: Db, email: string, self: nat) {
    forall i | i in db.users && i != self :: db.users[i].profile.email != Some(email)
  }

  predicate GroupsOfTenant(db: Db, tenant: nat, groups: seq<nat>) {
    forall g | g in groups :: g in db.groups && db.groups[g].tenant == tenant
  }

  predicate RolesKnown(db: Db, roles: seq<nat>) {
    forall r | r in roles :: r in db.roles
  }

  /** A column shows the text sent, an empty text as no value. */
  predicate Shows(column: Option<string>, text: string) {
    if text == "" then column == None else column == Some(text)
  }

  predicate ShowsProfile(p: Profile, f: UserForm) {
    && p.name == f.name && Shows(p.email, f.email) && Shows(p.department, f.department)
    && Shows(p.position, f.position) && Shows(p.contact, f.contact)
    && Shows(p.languageSet, f.languageSet) && Shows(p.timezone, f.timezone)
  }

  lemma ProfileShows(f: UserForm)
    ensures ShowsProfile(ProfileOf(f), f)
  {
  }

  lemma ProfileChecked(site: Site, f: UserForm, languageParam: string)
    ensures CheckProfile(site, f).Pass? <==> RightProfile(site, f)
    ensures CheckDetails(f, languageParam).Pass? <==> RightDetails(f)
  {
  }

  lemma AccountMissing(db: Db, account: string)
    ensures FindByAccount(db, account).None? <==> forall i | i in db.users :: db.users[i].account != account
  {
    if FindByAccount(db, account).None? {
      AccountFree(db, account);
    } else {
      var hits := set id | id in db.users && db.users[id].account == account;
      assert hits != {};
    }
  }

  /** When a user can be added. */
  predicate Addable(site: Site, db: Db, tid: nat, f: UserForm) {
    && f.id == 0 && f.tenant != 0 && f.tenant == tid && tid in db.tenants && site.adminRole !in f.roles
    && f.account != "" && |f.account| <= 30 && (forall i | i in db.users :: db.users[i].account != f.account)
    && RightProfile(site, f) && (forall i | i in db.users :: db.users[i].profile.email != Some(f.email))
    && GroupsOfTenant(db, f.tenant, f.groups) && RolesKnown(db, f.roles) && RightDetails(f)
  }

  lemma AddableIff(site: Site, db: Db, tid: nat, f: UserForm)
    ensures ValidateUserAdd(site, db, tid, f).Pass? <==> Addable(site, db, tid, f)
  {
    AccountMissing(db, f.account);
    ProfileChecked(site, f, "user.language_set");
    assert EmailTaken(db, f.email, {}) <==> exists i | i in db.users :: db.users[i].profile.email == Some(f.email);
  }

  /** A user is added exactly if everything sent is right. His row shows what was sent and the new password, which he
      must change; his roles and groups are those sent. */
  lemma AddUserIff(site: Site, db: Db, tid: nat, f: UserForm, hash: string, now: int)
    requires IdsKnown(db)
    ensures var r := Request(site, db, OpAddUser(tid, f, hash), now);
            && (r.Success? <==> Addable(site, db, tid, f))
            && (r.Success? ==>
                  var id := db.nextUser;
                  && id !in db.users && id in r.value.users
                  && r.value == db.(users := db.users[id := r.value.users[id]], userRoles := r.value.userRoles,
                                    userGroups := r.value.userGroups, nextUser := id + 1)
                  && RelationsOf(db, r.value, id, f.roles, f.groups)
                  && ShowsProfile(r.value.users[id].profile, f)
                  && r.value.users[id] == User(tid, f.account, r.value.users[id].profile, hash, None,
                                               f.passwordUpdatedAt, Some(true), f.lastLoggedInAt, None, None, None))
  {
    AddableIff(site, db, tid, f);
    ProfileShows(f);
  }

  /** The relation rows of one user are exactly those sent, all others stay. */
  ghost predicate RelationsOf(db: Db, after: Db, id: nat, roles: seq<nat>, groups: seq<nat>) {
    && (forall u, r :: (u, r) in after.userRoles <==> if u == id then r in roles else (u, r) in db.userRoles)
    && (forall u, g :: (u, g) in after.userGroups <==> if u == id then g in groups else (u, g) in db.userGroups)
  }

  /** Only an administrator or a manager changes roles and groups, and nobody those of the built-in account. */
  predicate RelatesUsers(site: Site, caller: Caller, id: nat) {
    id != site.adminUser && (site.adminRole in caller.roles || site.managerRole in caller.roles)
  }

  /** When a user can be updated. */
  predicate Updatable(site: Site, db: Db, tid: nat, caller: Caller, userId: nat, f: UserForm) {
    && f.id == userId && userId in db.users
    && f.tenant != 0 && f.tenant == db.users[userId].tenant && f.tenant == tid && tid in db.tenants
    && f.account == db.users[userId].account
    && (if userId == site.adminUser then site.adminRole in caller.roles
        else
          && site.adminRole !in f.roles
          && (site.adminRole in caller.roles || site.managerRole in caller.roles || caller.id == userId))
    && RightProfile(site, f) && MailFree(db, f.email, userId)
    && (RelatesUsers(site, caller, userId) ==> GroupsOfTenant(db, f.tenant, f.groups) && RolesKnown(db, f.roles))
    && RightDetails(f)
  }

  lemma UpdatableIff(site: Site, db: Db, tid: nat, caller: Caller, userId: nat, f: UserForm)
    requires TenantsKnown(db)
    ensures ValidateUserUpdate(site, db, tid, caller, userId, Some(f)).Pass? <==> Updatable(site, db, tid, caller, userId, f)
  {
    ProfileChecked(site, f, "user.department");
    assert EmailTaken(db, f.email, {f.id}) <==> !MailFree(db, f.email, f.id);
    assert MayRelate(site, caller, f.id) <==> RelatesUsers(site, caller, f.id);
  }

  /** A user is updated exactly if everything sent is right and the caller may. The profile shows what was sent, roles
      and groups are replaced by those sent exactly for callers who may change them, and of the row the login address
      and the failure record are gone. */
  lemma UpdateUserIff(site: Site, db: Db, tid: nat, caller: Caller, userId: nat, req: Option<UserForm>, now: int)
    requires TenantsKnown(db)
    ensures var r := Request(site, db, OpUpdateUser(tid, caller, userId, req), now);
            && (r.Success? <==> req.Some? && Updatable(site, db, tid, caller, userId, req.value))
            && (r.Success? ==>
                  && userId in r.value.users
                  && r.value == db.(users := db.users[userId := r.value.users[userId]],
                                    userRoles := r.value.userRoles, userGroups := r.value.userGroups)
                  && r.value.users[userId] == db.users[userId].(profile := r.value.users[userId].profile,
                                                               lastLoggedInIp := None, failedCount := None, failedAt := None)
                  && ShowsProfile(r.value.users[userId].profile, req.value)
                  && if RelatesUsers(site, caller, userId)
                     then RelationsOf(db, r.value, userId, req.value.roles, req.value.groups)
                     else r.value.userRoles == db.userRoles && r.value.userGroups == db.userGroups)
  {
    if req.Some? {
      UpdatableIff(site, db, tid, caller, userId, req.value);
      ProfileShows(req.value);
      assert MayRelate(site, caller, userId) <==> RelatesUsers(site, caller, userId);
    }
  }

  /** A user is deleted exactly if he is one of the tenant and does not hold the administrator role; his row and his
      relations are gone, everybody else's stay. */
  lemma DeleteUserIff(site: Site, db: Db, tid: nat, userId: nat, now: int)
    requires IdsKnown(db) && RolesJoin(db)
    ensures var r := Request(site, db, OpDeleteUser(tid, userId), now);
            && (r.Success? <==> && userId in db.users && db.users[userId].tenant == tid
                                && (userId, site.adminRole) !in db.userRoles)
            && (r.Success? ==>
                  && r.value == db.(users := db.users - {userId}, userRoles := r.value.userRoles, userGroups := r.value.userGroups)
                  && RelationsOf(db, r.value, userId, [], []))
  {
    assert (userId, site.adminRole) in db.userRoles <==> site.adminRole in RolesOf(db, userId);
  }

  // ----- who changes relations -----

  /** A role row of an existing user appears or goes only with his deletion, or through an update of him by an
      administrator or a manager, and never for the built-in account but by its deletion. */
  lemma WhoChangesRoles(site: Site, db: Db, op: Op, now: int, id: nat, role: nat)
    requires IdsKnown(db) && TenantsKnown(db) && id in db.users
    requires (id, role) in db.userRoles <==> (id, role) !in Apply(site, db, op, now).userRoles
    ensures (op.OpDeleteUser? && op.userId == id)
            || (op.OpUpdateUser? && op.userId == id && id != site.adminUser
                && (site.adminRole in op.caller.roles || site.managerRole in op.caller.roles)
                && op.req.Some? && (role in op.req.value.roles <==> (id, role) !in db.userRoles))
  {
    if op.OpUpdateUser? {
      UpdateUserIff(site, db, op.tid, op.caller, op.userId, op.req, now);
    }
  }

  /** The same for membership rows, which group requests change too. */
  lemma WhoChangesGroups(site: Site, db: Db, op: Op, now: int, id: nat, g: nat)
    requires IdsKnown(db) && TenantsKnown(db) && id in db.users
    requires (id, g) in db.userGroups <==> (id, g) !in Apply(site, db, op, now).userGroups
    ensures (op.OpDeleteUser? && op.userId == id)
            || (op.OpUpdateUser? && op.userId == id && id != site.adminUser
                && (site.adminRole in op.caller.roles || site.managerRole in op.caller.roles)
                && op.req.Some? && (g in op.req.value.groups <==> (id, g) !in db.userGroups))
            || (op.OpDeleteGroup? && op.groupId == g && (id, g) in db.userGroups)
            || (op.OpSetGroupUsers? && op.groupId == g && (id in op.members <==> (id, g) !in db.userGroups))
  {
    if op.OpUpdateUser? {
      UpdateUserIff(site, db, op.tid, op.caller, op.userId, op.req, now);
    }
  }

  // ----- passwords -----

  /** May the tenant's users take their last password again? No value says no. */
  predicate ReuseSays(db: Db, tenant: nat, allowed: bool) {
    var cfg := TenantConfig.ConfigOf(db.configs, tenant);
    if TenantConfig.UserReuseOldPassword in cfg
    then Decimal.ParseBool(cfg[TenantConfig.UserReuseOldPassword]) == Some(allowed)
    else !allowed
  }

  /** A password is changed exactly by its user, who knows the current one, to another one that is not too long and,
      unless the tenant allows it, not the one before. */
  lemma UpdatePasswordIff(site: Site, db: Db, caller: Caller, userId: nat, current: string, next: string, now: int)
    requires IdsKnown(db)
    ensures var r := Request(site, db, OpUpdatePassword(caller, userId, current, next), now);
            && (r.Success? <==>
                  && userId in db.users && caller.id == userId
                  && current != "" && next != "" && ByteLength(current) <= 64 && ByteLength(next) <= 64
                  && db.users[userId].password == current
                  && (ReuseSays(db, caller.tenant, true)
                      || (ReuseSays(db, caller.tenant, false) && db.users[userId].oldPassword != Some(next))))
            && (r.Success? ==>
                  r.value == db.(users := db.users[userId := db.users[userId].(
                    password := next, oldPassword := Some(current), passwordUpdateFlag := Some(false),
                    passwordUpdatedAt := Some(now))]))
  {
  }

  /** A password is reset exactly for a user of the tenant, of the built-in account not by a manager. */
  lemma ResetPasswordIff(site: Site, db: Db, tid: nat, caller: Caller, userId: nat, hash: string, now: int)
    requires IdsKnown(db)
    ensures var r := Request(site, db, OpResetPassword(tid, caller, userId, hash), now);
            && (r.Success? <==>
                  && userId in db.users && db.users[userId].tenant == tid
                  && (userId == site.adminUser ==> site.managerRole !in caller.roles))
            && (r.Success? ==>
                  r.value == db.(users := db.users[userId := db.users[userId].(
                    password := hash, oldPassword := Some(db.users[userId].password), passwordUpdateFlag := Some(true),
                    passwordUpdatedAt := Some(now))]))
  {
  }

  // ----- groups -----

  predicate RightGroup(db: Db, g: GroupForm, self: nat) {
    && g.tenant != 0 && g.name != "" && |g.name| <= 255 && |g.remarks| <= 300
    && forall i | i in db.groups && i != self ::
         db.groups[i].tenant == g.tenant && db.groups[i].name == g.name ==> db.groups[i].deleted
  }

  predicate ShowsGroup(row: Group, g: GroupForm) {
    row.tenant == g.tenant && row.name == g.name && Shows(row.remarks, g.remarks) && !row.deleted
  }

  lemma AddGroupIff(site: Site, db: Db, tid: nat, req: Option<GroupForm>, now: int)
    requires IdsKnown(db)
    ensures var r := Request(site, db, OpAddGroup(tid, req), now);
            && (r.Success? <==> req.Some? && req.value.id == 0 && req.value.tenant == tid && tid in db.tenants
                                && RightGroup(db, req.value, db.nextGroup))
            && (r.Success? ==>
                  && db.nextGroup !in db.groups && db.nextGroup in r.value.groups
                  && r.value == db.(groups := db.groups[db.nextGroup := r.value.groups[db.nextGroup]],
                                    nextGroup := db.nextGroup + 1)
                  && ShowsGroup(r.value.groups[db.nextGroup], req.value))
  {
  }

  lemma UpdateGroupIff(site: Site, db: Db, tid: nat, groupId: nat, req: Option<GroupForm>, now: int)
    requires TenantsKnown(db)
    ensures var r := Request(site, db, OpUpdateGroup(tid, groupId, req), now);
            && (r.Success? <==> req.Some? && req.value.id == groupId && groupId in db.groups && !db.groups[groupId].deleted
                                && db.groups[groupId].tenant == tid && req.value.tenant == tid
                                && RightGroup(db, req.value, groupId))
            && (r.Success? ==>
                  && groupId in r.value.groups
                  && r.value == db.(groups := db.groups[groupId := r.value.groups[groupId]])
                  && ShowsGroup(r.value.groups[groupId], req.value))
  {
  }

  /** A group is deleted exactly if it is a live one of the tenant and not called "default"; it loses its members. */
  lemma DeleteGroupIff(site: Site, db: Db, tid: nat, groupId: nat, now: int)
    requires IdsKnown(db)
    ensures var r := Request(site, db, OpDeleteGroup(tid, groupId), now);
            && (r.Success? <==> && groupId in db.groups && db.groups[groupId].tenant == tid
                                && !db.groups[groupId].deleted && db.groups[groupId].name != "default")
            && (r.Success? ==>
                  && r.value == db.(groups := db.groups[groupId := db.groups[groupId].(deleted := true)],
                                    userGroups := r.value.userGroups)
                  && forall u: nat, g: nat :: (u, g) in r.value.userGroups <==> g != groupId && (u, g) in db.userGroups)
  {
  }

  /** Members are set exactly if the group is a live one of the tenant and all of them are users of it. */
  lemma SetGroupUsersIff(site: Site, db: Db, tid: nat, groupId: nat, users: seq<nat>, now: int)
    requires IdsKnown(db) && TenantsKnown(db)
    ensures var r := Request(site, db, OpSetGroupUsers(tid, groupId, users), now);
            && (r.Success? <==> && groupId in db.groups && db.groups[groupId].tenant == tid && !db.groups[groupId].deleted
                                && forall u | u in users :: u in db.users && db.users[u].tenant == tid)
            && (r.Success? ==>
                  && r.value == db.(userGroups := r.value.userGroups)
                  && forall u: nat, g: nat :: (u, g) in r.value.userGroups <==>
                       if g == groupId then u in users else (u, g) in db.userGroups)
  {
    if groupId in db.groups && forall u | u in users :: u in db.users && db.users[u].tenant == tid {
      assert forall i | 0 <= i < |users| :: users[i] in users;
    }
    if CheckMembers(db, tid, users, 0).Pass? {
      assert forall u | u in users :: MemberUsable(db, tid, u);
    }
  }
}
