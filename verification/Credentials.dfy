/** Who can log in with what: accounts that are too long for a login, and the password a reset leaves. */
module Credentials {
  import opened Results
  import opened IdentityModel
  import opened Utf8
  import opened Sessions
  import opened SessionSafety
  import opened DirectoryInvariants
  import opened TableSafety
  import opened SessionRequests
  import opened DirectoryRequests
  import TenantConfig
  import Directory

  // ----- accounts of added users -----

  /** The new user is found by his account, unrestricted and with the password given. */
  lemma AddedUserFound(site: Site, s: State, tid: nat, f: UserForm, hash: string)
    requires Consistent(site, s.db) && Directory.AddUser(site, s.db, tid, f, hash).Success?
    ensures var after := Directory.AddUser(site, s.db, tid, f, hash).value;
            var id := s.db.nextUser;
            && FindByAccount(after, f.account) == Some(id) && id in after.users && f.account != ""
            && after.users[id].password == hash && after.users[id].failedCount == None
            && after.users[id].tenant in after.tenants
  {
    AddUserSaves(site, s.db, tid, f, hash);
    AddUserKeeps(site, s.db, tid, f, hash);
    AccountFinds(Directory.AddUser(site, s.db, tid, f, hash).value, s.db.nextUser);
  }

  lemma RightPasswordLogsIn(site: Site, s: State, id: nat, req: LoginRequest, ip: string, magic: nat, signature: nat)
    requires FindByAccount(s.db, req.account) == Some(id) && id in s.db.users && s.db.users[id].tenant in s.db.tenants
    requires s.db.users[id].failedCount == None && req.password == s.db.users[id].password && req.force
    requires req.account != "" && ByteLength(req.account) <= ACCOUNT_LENGTH
    requires req.password != "" && ByteLength(req.password) <= PASSWORD_LENGTH
    ensures Login(site, s, req, Some(ip), magic, signature).1.Success?
  {
    assert ValidateLogin(s.db, req, s.now) == Success(id);
  }

  lemma LongAccountOverflows(site: Site, s: State, req: LoginRequest, ip: Option<string>, magic: nat, signature: nat)
    requires req.account != "" && ByteLength(req.account) > ACCOUNT_LENGTH
    ensures Login(site, s, req, ip, magic, signature) == (s, Failure(LengthOverflow("account")))
  {
  }

  /** A user just added, with `hash` for his password, can log in exactly when his account has at most
      thirty bytes; otherwise his account is refused whatever else the login says. */
  lemma AddedUserCanLogIn(site: Site, s: State, tid: nat, f: UserForm, hash: string, ip: string, magic: nat, signature: nat)
    requires Consistent(site, s.db) && Directory.AddUser(site, s.db, tid, f, hash).Success?
    requires hash != "" && ByteLength(hash) <= PASSWORD_LENGTH
    ensures var t := s.(db := Directory.AddUser(site, s.db, tid, f, hash).value);
            && (Login(site, t, LoginRequest(f.account, hash, true), Some(ip), magic, signature).1.Success?
                <==> ByteLength(f.account) <= ACCOUNT_LENGTH)
            && (ByteLength(f.account) > ACCOUNT_LENGTH ==>
                  forall req: LoginRequest, from: Option<string> | req.account == f.account ::
                    Login(site, t, req, from, magic, signature) == (t, Failure(LengthOverflow("account"))))
  {
    var t := s.(db := Directory.AddUser(site, s.db, tid, f, hash).value);
    AddedUserFound(site, s, tid, f, hash);
    if ByteLength(f.account) <= ACCOUNT_LENGTH {
      RightPasswordLogsIn(site, t, s.db.nextUser, LoginRequest(f.account, hash, true), ip, magic, signature);
    } else {
      forall req: LoginRequest, from: Option<string> | req.account == f.account
        ensures Login(site, t, req, from, magic, signature) == (t, Failure(LengthOverflow("account")))
      {
        LongAccountOverflows(site, t, req, from, magic, signature);
      }
    }
  }

  const SYLLABLE := '\U{AC00}'

  /** A form with an account of eleven Hangul syllables and nothing else that could be refused. */
  function HangulForm(tid: nat): UserForm {
    UserForm(0, tid, Repeated(SYLLABLE, 11), "x", "", "", "", "", "", "", [], [], None, None)
  }

  lemma HangulFormIsAdmitted(site: Site, db: Db, tid: nat)
    requires EmailsUnique(db) && tid in db.tenants && tid != 0
    requires FindByAccount(db, HangulForm(tid).account).None?
    ensures Directory.ValidateUserAdd(site, db, tid, HangulForm(tid)).Pass?
  {
    var f := HangulForm(tid);
    assert |f.account| == 11 && f.account != "" && |f.name| == 1;
    assert |f.department| == 0 && |f.position| == 0 && |f.contact| == 0 && |f.timezone| == 0;
    assert Directory.CheckProfile(site, f).Pass?;
    assert Directory.CheckDetails(f, "user.language_set").Pass?;
    assert !Directory.EmailTaken(db, f.email, {});
  }

  /** Eleven syllables are thirty-three bytes: in any tenant such a user can be added, and never logs in. */
  lemma HangulAccountLocksOut(site: Site, s: State, tid: nat, hash: string, req: LoginRequest, ip: Option<string>,
                              magic: nat, signature: nat)
    requires Consistent(site, s.db) && tid in s.db.tenants && tid != 0
    requires FindByAccount(s.db, HangulForm(tid).account).None?
    requires hash != "" && ByteLength(hash) <= PASSWORD_LENGTH && req.account == HangulForm(tid).account
    ensures Directory.AddUser(site, s.db, tid, HangulForm(tid), hash).Success?
    ensures var t := s.(db := Directory.AddUser(site, s.db, tid, HangulForm(tid), hash).value);
            Login(site, t, req, ip, magic, signature).1 == Failure(LengthOverflow("account"))
  {
    RepeatedBytes(SYLLABLE, 11);
    HangulFormIsAdmitted(site, s.db, tid);
    AddedUserCanLogIn(site, s, tid, HangulForm(tid), hash, "", magic, signature);
  }

  // ----- the password a reset leaves -----

  /** Does the step set the password of user `id`, by another reset or by a change that names `hash`
      as the current password? */
  predicate SetsPassword(step: Step, id: nat, hash: string) {
    && step.StepDirectory?
    && match step.op
       case OpUpdatePassword(_, userId, current, _) => userId == id && current == hash
       case OpResetPassword(_, _, userId, _) => userId == id
       case _ => false
  }

  ghost predicate HasPassword(db: Db, id: nat, hash: string) {
    id < db.nextUser && (id in db.users ==> db.users[id].password == hash)
  }

  lemma DirectoryKeepsPassword(site: Site, db: Db, op: Directory.Op, now: int, id: nat, hash: string)
    requires HasPassword(db, id, hash) && !SetsPassword(StepDirectory(op), id, hash)
    ensures HasPassword(Directory.Apply(site, db, op, now), id, hash)
  {
  }

  lemma StepKeepsPassword(site: Site, s: State, step: Step, id: nat, hash: string)
    requires HasPassword(s.db, id, hash) && !SetsPassword(step, id, hash)
    ensures HasPassword(Next(site, s, step).db, id, hash)
  {
    if step.StepDirectory? {
      DirectoryKeepsPassword(site, s.db, step.op, s.now, id, hash);
    } else if step.StepLogin? {
      LoginIsAllOrNothing(site, s, step.req, step.ip, step.magic, step.signature);
    }
  }

  lemma {:induction false} RunKeepsPassword(site: Site, s: State, steps: seq<Step>, id: nat, hash: string)
    requires HasPassword(s.db, id, hash) && forall i | 0 <= i < |steps| :: !SetsPassword(steps[i], id, hash)
    ensures HasPassword(Run(site, s, steps).db, id, hash)
    decreases |steps|
  {
    if steps != [] {
      assert !SetsPassword(steps[0], id, hash);
      StepKeepsPassword(site, s, steps[0], id, hash);
      RunKeepsPassword(site, Next(site, s, steps[0]), steps[1..], id, hash);
    }
  }

  lemma ResetSetsPassword(site: Site, db: Db, tid: nat, caller: Caller, id: nat, hash: string, now: int)
    requires IdsKnown(db) && Directory.ResetPassword(site, db, tid, caller, id, hash, now).Success?
    ensures HasPassword(Directory.ResetPassword(site, db, tid, caller, id, hash, now).value, id, hash)
  {
  }

  lemma LoginNeedsPassword(site: Site, s: State, id: nat, hash: string, req: LoginRequest, ip: Option<string>,
                           magic: nat, signature: nat)
    requires HasPassword(s.db, id, hash)
    ensures var reply := Login(site, s, req, ip, magic, signature).1;
            reply.Success? && reply.value.payload.id == id ==> req.password == hash
  {
    LoginIsAllOrNothing(site, s, req, ip, magic, signature);
    if FindByAccount(s.db, req.account).Some? {
      FoundAccount(s.db, req.account);
    }
  }

  /** After a reset only the password it made logs the user in, through every run of the service in which
      nobody resets it again or changes it with that password in hand. */
  lemma OnlyResetPasswordLogsIn(site: Site, s: State, tid: nat, caller: Caller, id: nat, hash: string, steps: seq<Step>,
                                req: LoginRequest, ip: Option<string>, magic: nat, signature: nat)
    requires IdsKnown(s.db) && Directory.ResetPassword(site, s.db, tid, caller, id, hash, s.now).Success?
    requires forall i | 0 <= i < |steps| :: !SetsPassword(steps[i], id, hash)
    ensures var reset := s.(db := Directory.ResetPassword(site, s.db, tid, caller, id, hash, s.now).value);
            var reply := Login(site, Run(site, reset, steps), req, ip, magic, signature).1;
            reply.Success? && reply.value.payload.id == id ==> req.password == hash
  {
    var reset := s.(db := Directory.ResetPassword(site, s.db, tid, caller, id, hash, s.now).value);
    ResetSetsPassword(site, s.db, tid, caller, id, hash, s.now);
    RunKeepsPassword(site, reset, steps, id, hash);
    LoginNeedsPassword(site, Run(site, reset, steps), id, hash, req, ip, magic, signature);
  }

  // ----- passwords that are due -----

  /** A user who changed his password is told at a login to change it again exactly when the tenant's change cycle of
      some days has passed since; after a reset he is told so at every login. */
  lemma PasswordAges(site: Site, db: Db, tid: nat, caller: Caller, userId: nat, current: string, next: string,
                     now: int, ip: string, later: int, days: int)
    requires IdsKnown(db) && userId in db.users && ChangeCycle(db, db.users[userId].tenant, days)
    ensures var changed := Directory.UpdatePassword(db, caller, userId, current, next, now);
            changed.Success? ==>
              && userId in changed.value.users
              && LoggedInRow(changed.value, changed.value.users[userId], ip, later).passwordUpdateFlag
                 == Some(days != 0 && later >= now + days * 86400)
    ensures var reset := Directory.ResetPassword(site, db, tid, caller, userId, next, now);
            reset.Success? ==>
              && userId in reset.value.users
              && LoggedInRow(reset.value, reset.value.users[userId], ip, later).passwordUpdateFlag == Some(true)
  {
    UpdatePasswordIff(site, db, caller, userId, current, next, now);
    ResetPasswordIff(site, db, tid, caller, userId, next, now);
    var changed := Directory.UpdatePassword(db, caller, userId, current, next, now);
    if changed.Success? {
      PasswordDueIff(changed.value, changed.value.users[userId], ip, later, days);
    }
  }
}
