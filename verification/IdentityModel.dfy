/** Rows and tables of the identity database, and the values a request carries. */
module IdentityModel {
  import opened Results
  import opened Decimal
  import TenantConfig

  const NAME_LENGTH := 255
  const REMARKS_LENGTH := 300
  const DEPARTMENT_LENGTH := 255
  const POSITION_LENGTH := 255
  const CONTACT_LENGTH := 20
  const TIMEZONE_LENGTH := 35
  const ACCOUNT_LENGTH := 30
  const EMAIL_LENGTH := 320
  const PASSWORD_LENGTH := 64

  /** What a user may say about himself; an empty text is stored as no value. */
  datatype Profile = Profile(
    name: string,
    email: Option<string>,
    department: Option<string>,
    position: Option<string>,
    contact: Option<string>,
    languageSet: Option<string>,
    timezone: Option<string>)

  datatype User = User(
    tenant: nat,
    account: string,
    profile: Profile,
    password: string,
    oldPassword: Option<string>,
    passwordUpdatedAt: Option<int>,
    passwordUpdateFlag: Option<bool>,
    lastLoggedInAt: Option<int>,
    lastLoggedInIp: Option<string>,
    failedCount: Option<nat>,
    failedAt: Option<int>)

  datatype Group = Group(tenant: nat, name: string, remarks: Option<string>, deleted: bool)

  datatype Role = Role(solution: string, role: string)

  /** Row ids come from sequences: `nextUser` and `nextGroup` are the next values. */
  datatype Db = Db(
    tenants: set<nat>,
    users: map<nat, User>,
    groups: map<nat, Group>,
    roles: map<nat, Role>,
    userGroups: set<(nat, nat)>,
    userRoles: set<(nat, nat)>,
    configs: TenantConfig.Table,
    nextUser: nat,
    nextGroup: nat)

  /** What the service caches at start-up or asks its host about:
      the built-in account and the two built-in roles, the time zones that load, the mail
      addresses whose domain exists, and the largest value the failure-count column holds. */
  datatype Site = Site(
    adminUser: nat,
    adminRole: nat,
    managerRole: nat,
    zones: set<string>,
    mailable: set<string>,
    counterMax: nat)

  /** The authenticated user on whose behalf a request is made. */
  datatype Caller = Caller(id: nat, tenant: nat, roles: seq<nat>)

  /** A user as sent in a request; tenant 0 stands for a missing tenant. */
  datatype UserForm = UserForm(
    id: nat,
    tenant: nat,
    account: string,
    name: string,
    email: string,
    department: string,
    position: string,
    contact: string,
    languageSet: string,
    timezone: string,
    roles: seq<nat>,
    groups: seq<nat>,
    lastLoggedInAt: Option<int>,
    passwordUpdatedAt: Option<int>)

  datatype GroupForm = GroupForm(id: nat, tenant: nat, name: string, remarks: string)

  predicate IsAdmin(site: Site, roles: seq<nat>) {
    site.adminRole in roles
  }

  predicate IsManager(site: Site, roles: seq<nat>) {
    site.managerRole in roles
  }

  function Optional(text: string): Option<string> {
    if text == "" then None else Some(text)
  }

  function ProfileOf(f: UserForm): Profile {
    Profile(f.name, Optional(f.email), Optional(f.department), Optional(f.position),
            Optional(f.contact), Optional(f.languageSet), Optional(f.timezone))
  }

  /** The row built from a request alone: no password, no login record. */
  function RowOf(f: UserForm): User {
    User(f.tenant, f.account, ProfileOf(f), "", None, f.passwordUpdatedAt, None,
         f.lastLoggedInAt, None, None, None)
  }

  function GroupRowOf(f: GroupForm): Group {
    Group(f.tenant, f.name, Optional(f.remarks), false)
  }

  predicate IsLeast(s: set<nat>, m: nat) {
    m in s && forall x | x in s :: m <= x
  }

  /** The least element of a set: `First` orders rows by primary key. */
  function Least(s: set<nat>): (m: nat)
    requires s != {}
    ensures IsLeast(s, m)
  {
    LeastExists(s);
    var m :| IsLeast(s, m);
    m
  }

  lemma {:induction false} LeastExists(s: set<nat>)
    requires s != {}
    ensures exists m :: IsLeast(s, m)
  {
    var e :| e in s;
    var rest := s - {e};
    if rest == {} {
      assert s == {e};
      assert IsLeast(s, e);
    } else {
      LeastExists(rest);
      var m :| IsLeast(rest, m);
      assert forall x | x in s :: x == e || x in rest;
      assert IsLeast(s, if e < m then e else m);
    }
  }

  function FindByAccount(db: Db, account: string): Option<nat> {
    var hits := set id | id in db.users && db.users[id].account == account;
    if hits == {} then None else Some(Least(hits))
  }

  /** The rows of a relation after all rows of `id` have been replaced. */
  function Replaced(relation: set<(nat, nat)>, id: nat, others: seq<nat>): (r: set<(nat, nat)>)
    ensures forall p :: p in r <==> (p.0 != id && p in relation) || (p.0 == id && p.1 in others)
  {
    (set p | p in relation && p.0 != id) + (set o | o in others :: (id, o))
  }

  function RolesOf(db: Db, id: nat): set<nat> {
    set r | r in db.roles && (id, r) in db.userRoles
  }
}
