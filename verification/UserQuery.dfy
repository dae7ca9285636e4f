/** The user list: filters folded into one query, joins done as two queries with an id list
    between them, and page numbers counted apart from the rows. */
module UserQuery {
  import opened Results
  import opened IdentityModel
  import opened Decimal
  import opened Paging
  import opened Like

  const STORE_KEY_PREFIX := "cdm.cloud.user.sessions"
  const SOLUTION_LENGTH := 30
  const ROLES := ["manager", "operator", "viewer"]

  /** What the session store answers when its keys are listed. */
  datatype Listing = NoKeys | Listed(keys: seq<string>) | Broken

  /** `rows` is the order in which the database reads the user table. */
  datatype World = World(db: Db, rows: seq<nat>, sessions: Listing)

  /** The columns of ids are signed 64-bit numbers. */
  ghost predicate Valid(w: World) {
    && |w.rows| < TWO_63
    && (forall p | p in w.db.userGroups + w.db.userRoles :: p.0 < TWO_63 && p.1 < TWO_63)
    && (forall id :: id in w.rows <==> id in w.db.users)
    && (forall i, j | 0 <= i < j < |w.rows| :: w.rows[i] != w.rows[j])
  }

  // ----- queries -----

  datatype Condition =
    | TenantIs(tenant: nat)
    | IdIn(ids: seq<nat>)
    | IdNotIn(ids: seq<nat>)
    | NeverTrue
    | AlwaysTrue
    | NameLike(pattern: string)
    | DepartmentLike(pattern: string)
    | PositionLike(pattern: string)

  /** Offset and limit stand beside the conditions. */
  datatype Query = Query(conditions: seq<Condition>, offset: Option<u64>, limit: Option<u64>)

  predicate LikeOrNull(column: Option<string>, pattern: string) {
    column.Some? && Matches(pattern, column.value)
  }

  /** A missing value is not LIKE anything; an empty list is written as NULL, and then neither
      IN nor NOT IN holds. */
  predicate Holds(c: Condition, id: nat, u: User) {
    match c
    case TenantIs(tenant) => u.tenant == tenant
    case IdIn(ids) => id in ids
    case IdNotIn(ids) => ids != [] && id !in ids
    case NeverTrue => false
    case AlwaysTrue => true
    case NameLike(pattern) => Matches(pattern, u.profile.name)
    case DepartmentLike(pattern) => LikeOrNull(u.profile.department, pattern)
    case PositionLike(pattern) => LikeOrNull(u.profile.position, pattern)
  }

  predicate HoldAll(conditions: seq<Condition>, id: nat, u: User) {
    forall c | c in conditions :: Holds(c, id, u)
  }

  /** The rows wanted, in the order of the rows. */
  function Keep(rows: seq<nat>, wanted: set<nat>): (kept: seq<nat>)
    ensures |kept| <= |rows|
    ensures forall id :: id in kept <==> id in rows && id in wanted
  {
    if rows == [] then []
    else if rows[0] in wanted then [rows[0]] + Keep(rows[1..], wanted)
    else Keep(rows[1..], wanted)
  }

  function Rows(w: World, conditions: seq<Condition>): seq<nat> {
    Keep(w.rows, set id | id in w.db.users && HoldAll(conditions, id, w.db.users[id]))
  }

  /** An offset or a limit that is no signed 64-bit number is refused, and so is an id in a list. */
  predicate Writable(n: Option<u64>) {
    n.Some? ==> n.value < TWO_63
  }

  predicate Sendable(c: Condition) {
    match c
    case IdIn(ids) => forall id | id in ids :: id < TWO_63
    case IdNotIn(ids) => forall id | id in ids :: id < TWO_63
    case _ => true
  }

  predicate AllSendable(conditions: seq<Condition>) {
    forall c | c in conditions :: Sendable(c)
  }

  function Find(w: World, q: Query): Result<seq<nat>, Error> {
    if !Writable(q.offset) || !Writable(q.limit) || !AllSendable(q.conditions) then Failure(UnusableDatabase)
    else
      var rows := Rows(w, q.conditions);
      var offset := if q.offset.Some? then q.offset.value else 0;
      Success(Slice(rows, offset, if q.limit.Some? then q.limit.value else |rows|))
  }

  // ----- filters and what they mean -----

  datatype Filter =
    | Solution(solution: string, role: string)
    | InGroup(group: nat)
    | ExcludeGroup(group: nat)
    | Name(text: string)
    | Department(text: string)
    | Position(text: string)
    | Page(offset: u64, limit: u64)
    | LoggedIn

  predicate HasRole(db: Db, id: nat, solution: string, role: string) {
    exists r | r in db.roles :: RoleWanted(db.roles[r], solution, role) && (id, r) in db.userRoles
  }

  predicate RoleWanted(r: Role, solution: string, role: string) {
    r.solution == solution && (role == "" || r.role == role)
  }

  /** The user id in a store key; keys that do not end in a number are skipped, a negative number
      becomes an id beyond what the database takes. */
  function SessionOwner(key: string): Option<u64> {
    var prefix := STORE_KEY_PREFIX + ".";
    match ParseInt64(if prefix <= key then key[|prefix|..] else key)
    case Some(id) => Some(ToUint64(id))
    case None => None
  }

  predicate HasSession(w: World, id: nat) {
    w.sessions.Listed? && exists k | k in w.sessions.keys :: SessionOwner(k) == Some(id)
  }

  /** A filter that cannot be applied: the sessions cannot be listed, or the group is no signed number. */
  predicate Fails(w: World, f: Filter) {
    match f
    case InGroup(g) => g >= TWO_63
    case ExcludeGroup(g) => g >= TWO_63
    case LoggedIn => w.sessions.Broken?
    case _ => false
  }

  /** A filter that is applied but whose ids the database refuses. */
  predicate Unsendable(w: World, f: Filter) {
    f.LoggedIn? && w.sessions.Listed?
    && exists k | k in w.sessions.keys :: SessionOwner(k).Some? && SessionOwner(k).value >= TWO_63
  }

  predicate Refused(w: World, filters: seq<Filter>) {
    exists f | f in filters :: Fails(w, f) || Unsendable(w, f)
  }

  predicate Meets(w: World, f: Filter, id: nat)
    requires id in w.db.users
  {
    match f
    case Solution(solution, role) => HasRole(w.db, id, solution, role)
    case InGroup(g) => (id, g) in w.db.userGroups
    case ExcludeGroup(g) => (id, g) !in w.db.userGroups
    case Name(text) => Matches(Around(text), w.db.users[id].profile.name)
    case Department(text) => LikeOrNull(w.db.users[id].profile.department, Around(text))
    case Position(text) => LikeOrNull(w.db.users[id].profile.position, Around(text))
    case Page(_, _) => true
    case LoggedIn => HasSession(w, id)
  }

  predicate MeetsAll(w: World, filters: seq<Filter>, id: nat)
    requires id in w.db.users
  {
    forall f | f in filters :: Meets(w, f, id)
  }

  /** The users asked for, in table order. */
  function Matching(w: World, tid: nat, filters: seq<Filter>): seq<nat> {
    Keep(w.rows, set id | id in w.db.users && w.db.users[id].tenant == tid && MeetsAll(w, filters, id))
  }

  function PageOf(filters: seq<Filter>): Option<(u64, u64)> {
    if filters == [] then None
    else
      var last := filters[|filters| - 1];
      if last.Page? then Some((last.offset, last.limit)) else PageOf(filters[..|filters| - 1])
  }

  function CutOut(rows: seq<nat>, page: Option<(u64, u64)>): seq<nat> {
    match page
    case None => rows
    case Some((offset, limit)) => Slice(rows, offset, limit)
  }

  /** The list asked for: the page of the users of the tenant that meet every filter. */
  function ListOf(w: World, tid: nat, filters: seq<Filter>): Result<seq<nat>, Error> {
    if tid !in w.db.tenants then Failure(NotFoundTenant)
    else if Refused(w, filters) then Failure(UnusableDatabase)
    else
      var page := PageOf(filters);
      if page.Some? && (page.value.0 >= TWO_63 || page.value.1 >= TWO_63) then Failure(UnusableDatabase)
      else Success(CutOut(Matching(w, tid, filters), page))
  }

  // ----- how the service computes it -----

  /** Adding filter `f` to `q` narrows it by exactly what the filter means. */
  ghost predicate Narrows(w: World, q: Query, f: Filter, r: Query) {
    && r.offset == q.offset && r.limit == q.limit
    && (AllSendable(r.conditions) <==> AllSendable(q.conditions) && !Unsendable(w, f))
    && forall id | id in w.db.users ::
         HoldAll(r.conditions, id, w.db.users[id]) <==> HoldAll(q.conditions, id, w.db.users[id]) && Meets(w, f, id)
  }

  function Where(q: Query, c: Condition): (r: Query)
    ensures r.offset == q.offset && r.limit == q.limit
    ensures AllSendable(r.conditions) <==> AllSendable(q.conditions) && Sendable(c)
    ensures forall id, u :: HoldAll(r.conditions, id, u) <==> HoldAll(q.conditions, id, u) && Holds(c, id, u)
  {
    q.(conditions := q.conditions + [c])
  }

  /** The rows of a result set, in some order. */
  method Fetch<T(==)>(table: set<T>) returns (rows: seq<T>)
    ensures forall x :: x in rows <==> x in table
    ensures rows == [] <==> table == {}
  {
    rows := [];
    var rest := table;
    while rest != {}
      invariant rest <= table
      invariant forall x :: x in rows <==> x in table - rest
    {
      var x :| x in rest;
      rows := rows + [x];
      rest := rest - {x};
    }
    assert table - rest == table;
    if rows != [] {
      assert rows[0] in table;
    }
  }

  method ApplySolution(w: World, q: Query, solution: string, role: string) returns (r: Query)
    requires Valid(w)
    ensures Narrows(w, q, Solution(solution, role), r)
  {
    var roles := Fetch<nat>(set id | id in w.db.roles && RoleWanted(w.db.roles[id], solution, role));
    if roles == [] {
      assert forall id | id in w.db.roles :: RoleWanted(w.db.roles[id], solution, role) ==> id in roles;
      return Where(q, NeverTrue);
    }
    var rids: seq<nat> := [];
    for i := 0 to |roles|
      invariant rids == roles[..i]
    {
      rids := rids + [roles[i]];
    }
    assert rids == roles;
    var userRoles := Fetch<nat>(set p | p in w.db.userRoles && p.1 in rids :: p.0);
    HoldersFetched(w.db, solution, role, rids, userRoles);
    if userRoles == [] {
      return Where(q, NeverTrue);
    }
    var uids: seq<nat> := [];
    for i := 0 to |userRoles|
      invariant uids == userRoles[..i]
    {
      uids := uids + [userRoles[i]];
    }
    assert uids == userRoles;
    return Where(q, IdIn(uids));
  }

  /** The join of users, role rows and roles, done in two steps through a list of role ids. */
  lemma HoldersFetched(db: Db, solution: string, role: string, rids: seq<nat>, holders: seq<nat>)
    requires forall r :: r in rids <==> r in db.roles && RoleWanted(db.roles[r], solution, role)
    requires forall id :: id in holders <==> exists p | p in db.userRoles :: p.1 in rids && p.0 == id
    ensures forall id :: HasRole(db, id, solution, role) <==> id in holders
  {
    forall id
      ensures HasRole(db, id, solution, role) <==> id in holders
    {
      if HasRole(db, id, solution, role) {
        var r :| r in db.roles && RoleWanted(db.roles[r], solution, role) && (id, r) in db.userRoles;
        assert (id, r).1 in rids && (id, r).0 == id;
      }
      if id in holders {
        var p :| p in db.userRoles && p.1 in rids && p.0 == id;
        assert p == (id, p.1);
      }
    }
  }

  method MembersOf(db: Db, group: nat) returns (uids: seq<nat>)
    ensures forall id :: id in uids <==> (id, group) in db.userGroups
  {
    var userGroups := Fetch(set p | p in db.userGroups && p.1 == group);
    uids := [];
    for i := 0 to |userGroups|
      invariant forall id :: id in uids <==> (id, group) in userGroups[..i]
    {
      assert userGroups[i] in userGroups && userGroups[..i + 1] == userGroups[..i] + [userGroups[i]];
      uids := uids + [userGroups[i].0];
    }
    assert userGroups[..|userGroups|] == userGroups;
  }

  method ApplyGroup(w: World, q: Query, group: nat) returns (r: Result<Query, Error>)
    requires Valid(w)
    ensures r == Failure(UnusableDatabase) <==> group >= TWO_63
    ensures group < TWO_63 ==> r.Success? && Narrows(w, q, InGroup(group), r.value)
  {
    if group >= TWO_63 {
      return Failure(UnusableDatabase);
    }
    var uids := MembersOf(w.db, group);
    if uids == [] {
      return Success(Where(q, NeverTrue));
    }
    assert forall id | id in uids :: (id, group) in w.db.userGroups;
    return Success(Where(q, IdIn(uids)));
  }

  /** With no member there is nobody to leave out; NOT IN an empty list would leave out everybody. */
  method ApplyExcludeGroup(w: World, q: Query, group: nat) returns (r: Result<Query, Error>)
    requires Valid(w)
    ensures r == Failure(UnusableDatabase) <==> group >= TWO_63
    ensures group < TWO_63 ==> r.Success? && Narrows(w, q, ExcludeGroup(group), r.value)
  {
    if group >= TWO_63 {
      return Failure(UnusableDatabase);
    }
    var uids := MembersOf(w.db, group);
    if uids == [] {
      return Success(Where(q, AlwaysTrue));
    }
    assert forall id | id in uids :: (id, group) in w.db.userGroups;
    return Success(Where(q, IdNotIn(uids)));
  }

  method ApplyLogin(w: World, q: Query) returns (r: Result<Query, Error>)
    ensures r.Failure? <==> w.sessions.Broken?
    ensures r.Failure? ==> r.error == UnusableDatabase
    ensures r.Success? ==> Narrows(w, q, LoggedIn, r.value)
  {
    if w.sessions.NoKeys? {
      return Success(Where(q, NeverTrue));
    }
    if w.sessions.Broken? {
      return Failure(UnusableDatabase);
    }
    var uids := SessionOwners(w.sessions.keys);
    OwnersSendable(w, uids);
    OwnersMeet(w, uids);
    ConditionNarrows(w, q, LoggedIn, IdIn(uids));
    return Success(Where(q, IdIn(uids)));
  }

  method SessionOwners(keys: seq<string>) returns (uids: seq<nat>)
    ensures forall id :: id in uids <==> exists k | k in keys :: SessionOwner(k) == Some(id)
  {
    uids := [];
    for i := 0 to |keys|
      invariant forall id :: id in uids <==> exists k | 0 <= k < i :: SessionOwner(keys[k]) == Some(id)
    {
      var owner := SessionOwner(keys[i]);
      if owner.None? {
        continue;
      }
      uids := uids + [owner.value];
    }
  }

  lemma OwnersSendable(w: World, uids: seq<nat>)
    requires w.sessions.Listed?
    requires forall id :: id in uids <==> exists k | k in w.sessions.keys :: SessionOwner(k) == Some(id)
    ensures Sendable(IdIn(uids)) <==> !Unsendable(w, LoggedIn)
  {
    if Unsendable(w, LoggedIn) {
      var k :| k in w.sessions.keys && SessionOwner(k).Some? && SessionOwner(k).value >= TWO_63;
      assert SessionOwner(k) == Some(SessionOwner(k).value as nat);
      assert SessionOwner(k).value as nat in uids;
    }
  }

  lemma OwnersMeet(w: World, uids: seq<nat>)
    requires w.sessions.Listed?
    requires forall id :: id in uids <==> exists k | k in w.sessions.keys :: SessionOwner(k) == Some(id)
    ensures forall id | id in w.db.users :: Holds(IdIn(uids), id, w.db.users[id]) <==> Meets(w, LoggedIn, id)
  {
    forall id | id in w.db.users
      ensures Holds(IdIn(uids), id, w.db.users[id]) <==> Meets(w, LoggedIn, id)
    {
      assert HasSession(w, id) <==> id in uids;
    }
  }

  /** A condition that holds for exactly the users who meet a filter, and is sendable when the filter is. */
  lemma ConditionNarrows(w: World, q: Query, f: Filter, c: Condition)
    requires Sendable(c) <==> !Unsendable(w, f)
    requires forall id | id in w.db.users :: Holds(c, id, w.db.users[id]) <==> Meets(w, f, id)
    ensures Narrows(w, q, f, Where(q, c))
  {
  }

  method ApplyFilter(w: World, q: Query, f: Filter) returns (r: Result<Query, Error>)
    requires Valid(w)
    ensures r.Failure? <==> Fails(w, f)
    ensures r.Failure? ==> r.error == UnusableDatabase
    ensures r.Success? && !f.Page? ==> Narrows(w, q, f, r.value)
    ensures f.Page? ==> r == Success(q.(offset := Some(f.offset), limit := Some(f.limit)))
  {
    match f {
      case Solution(solution, role) =>
        var narrowed := ApplySolution(w, q, solution, role);
        return Success(narrowed);
      case InGroup(group) =>
        r := ApplyGroup(w, q, group);
      case ExcludeGroup(group) =>
        r := ApplyExcludeGroup(w, q, group);
      case Name(text) => return Success(Where(q, NameLike(Around(text))));
      case Department(text) => return Success(Where(q, DepartmentLike(Around(text))));
      case Position(text) => return Success(Where(q, PositionLike(Around(text))));
      case Page(offset, limit) => return Success(q.(offset := Some(offset), limit := Some(limit)));
      case LoggedIn => r := ApplyLogin(w, q);
    }
  }

  ghost predicate Folded(w: World, tid: nat, filters: seq<Filter>, q: Query) {
    && (forall f | f in filters :: !Fails(w, f))
    && (AllSendable(q.conditions) <==> !Refused(w, filters))
    && forall id | id in w.db.users ::
         HoldAll(q.conditions, id, w.db.users[id]) <==> w.db.users[id].tenant == tid && MeetsAll(w, filters, id)
  }

  /** One user at a time, folding one filter more adds what that filter means. */
  lemma FoldOne(w: World, tid: nat, filters: seq<Filter>, i: nat, q: Query, r: Query)
    requires i < |filters| && Folded(w, tid, filters[..i], q)
    requires !Fails(w, filters[i])
    requires if filters[i].Page? then r.conditions == q.conditions else Narrows(w, q, filters[i], r)
    ensures Folded(w, tid, filters[..i + 1], r)
  {
    assert filters[..i + 1] == filters[..i] + [filters[i]];
    forall id | id in w.db.users
      ensures MeetsAll(w, filters[..i + 1], id) <==> MeetsAll(w, filters[..i], id) && Meets(w, filters[i], id)
    {
    }
  }

  lemma FoldedRows(w: World, tid: nat, filters: seq<Filter>, q: Query)
    requires Folded(w, tid, filters, q)
    ensures Rows(w, q.conditions) == Matching(w, tid, filters)
  {
    assert (set id | id in w.db.users && HoldAll(q.conditions, id, w.db.users[id]))
        == (set id | id in w.db.users && w.db.users[id].tenant == tid && MeetsAll(w, filters, id));
  }

  function Base(tid: nat): Query {
    Query([TenantIs(tid)], None, None)
  }

  lemma BaseFolded(w: World, tid: nat)
    ensures Folded(w, tid, [], Base(tid))
  {
    forall id | id in w.db.users
      ensures HoldAll(Base(tid).conditions, id, w.db.users[id]) <==> w.db.users[id].tenant == tid
    {
      assert TenantIs(tid) in Base(tid).conditions;
    }
  }

  method GetUsers(w: World, tid: nat, filters: seq<Filter>) returns (r: Result<seq<nat>, Error>)
    requires Valid(w)
    ensures r == ListOf(w, tid, filters)
  {
    if tid !in w.db.tenants {
      return Failure(NotFoundTenant);
    }
    var q := Base(tid);
    BaseFolded(w, tid);
    assert filters[..0] == [];
    for i := 0 to |filters|
      invariant Folded(w, tid, filters[..i], q)
      invariant (q.offset, q.limit) == match PageOf(filters[..i])
                                       case None => (None, None)
                                       case Some((offset, limit)) => (Some(offset), Some(limit))
    {
      var step := ApplyFilter(w, q, filters[i]);
      if step.Failure? {
        return Failure(UnusableDatabase);
      }
      FoldOne(w, tid, filters, i, q, step.value);
      assert filters[..i + 1][..i] == filters[..i];
      q := step.value;
    }
    assert filters[..|filters|] == filters;
    FoldedRows(w, tid, filters, q);
    assert PageOf(filters).None? ==> Slice(Matching(w, tid, filters), 0, |Matching(w, tid, filters)|) == Matching(w, tid, filters);
    r := Find(w, q);
  }

  /** The total counts the users of the filters without the page. */
  function PaginationOf(w: World, tid: nat, filters: seq<Filter>): Result<Pagination, Error>
    requires Valid(w)
  {
    if Refused(w, filters) then Failure(UnusableDatabase)
    else
      var (offset, limit) := if PageOf(filters).Some? then PageOf(filters).value else (0, 0);
      Success(Paginate(|Matching(w, tid, filters)|, limit, offset))
  }

  method GetUsersPagination(w: World, tid: nat, filters: seq<Filter>) returns (r: Result<Pagination, Error>)
    requires Valid(w)
    ensures r == PaginationOf(w, tid, filters)
  {
    var offset: u64, limit: u64 := 0, 0;
    var q := Base(tid);
    BaseFolded(w, tid);
    assert filters[..0] == [];
    for i := 0 to |filters|
      invariant Folded(w, tid, filters[..i], q)
      invariant (offset, limit) == if PageOf(filters[..i]).Some? then PageOf(filters[..i]).value else (0, 0)
    {
      assert filters[..i + 1][..i] == filters[..i];
      if filters[i].Page? {
        offset := filters[i].offset;
        limit := filters[i].limit;
        FoldOne(w, tid, filters, i, q, q);
        continue;
      }
      var step := ApplyFilter(w, q, filters[i]);
      if step.Failure? {
        return Failure(UnusableDatabase);
      }
      FoldOne(w, tid, filters, i, q, step.value);
      q := step.value;
    }
    assert filters[..|filters|] == filters;
    FoldedRows(w, tid, filters, q);
    if !AllSendable(q.conditions) {
      return Failure(UnusableDatabase);
    }
    r := Success(Paginate(|Rows(w, q.conditions)|, limit, offset));
  }

  // ----- the order of filters -----

  lemma {:induction false} LastPage(filters: seq<Filter>)
    ensures PageOf(filters).None? <==> forall f | f in filters :: !f.Page?
    ensures PageOf(filters).Some? ==> Page(PageOf(filters).value.0, PageOf(filters).value.1) in filters
  {
    if filters != [] {
      LastPage(filters[..|filters| - 1]);
      assert filters == filters[..|filters| - 1] + [filters[|filters| - 1]];
    }
  }

  lemma SameMatching(w: World, tid: nat, filters: seq<Filter>, others: seq<Filter>)
    requires forall f :: f in filters <==> f in others
    ensures Matching(w, tid, filters) == Matching(w, tid, others)
  {
    assert (set id | id in w.db.users && w.db.users[id].tenant == tid && MeetsAll(w, filters, id))
        == (set id | id in w.db.users && w.db.users[id].tenant == tid && MeetsAll(w, others, id));
  }

  /** Neither the list nor the page numbers depend on the order of the filters or on where among them
      the page stands, as long as only one page is asked for. */
  lemma OrderIsIrrelevant(w: World, tid: nat, filters: seq<Filter>, others: seq<Filter>)
    requires Valid(w) && multiset(filters) == multiset(others)
    requires forall f, g | f in filters && g in filters && f.Page? && g.Page? :: f == g
    ensures ListOf(w, tid, filters) == ListOf(w, tid, others)
    ensures PaginationOf(w, tid, filters) == PaginationOf(w, tid, others)
  {
    assert forall f :: f in filters <==> f in others by {
      assert forall f :: f in filters <==> f in multiset(filters);
      assert forall f :: f in others <==> f in multiset(others);
    }
    SameMatching(w, tid, filters, others);
    assert PageOf(filters) == PageOf(others) by {
      LastPage(filters);
      LastPage(others);
    }
  }

  // ----- the request -----

  datatype ListRequest = ListRequest(
    solution: string,
    role: string,
    group: nat,
    excludeGroup: nat,
    name: string,
    department: string,
    position: string,
    offset: Option<u64>,
    limit: Option<u64>,
    loginOnly: bool)

  function ValidateUserListGet(req: ListRequest): Outcome<Error> {
    var role := req.role;
    :- Need(|req.solution| <= SOLUTION_LENGTH, LengthOverflow("solution"));
    :- Need(role == "" || role in ROLES, UnavailableParameterValue("role"));
    :- Need(|req.name| <= NAME_LENGTH, LengthOverflow("user name"));
    :- Need(|req.department| <= DEPARTMENT_LENGTH, LengthOverflow("user department"));
    :- Need(|req.position| <= POSITION_LENGTH, LengthOverflow("user position"));
    Pass
  }

  /** What a request asks of a user; a parameter left empty asks nothing, and so does a role
      without a solution. */
  predicate Wanted(w: World, req: ListRequest, id: nat)
    requires id in w.db.users
  {
    var u := w.db.users[id];
    && (req.solution != "" ==> HasRole(w.db, id, req.solution, req.role))
    && (req.group != 0 ==> (id, req.group) in w.db.userGroups)
    && (req.excludeGroup != 0 ==> (id, req.excludeGroup) !in w.db.userGroups)
    && (req.name != "" ==> Matches(Around(req.name), u.profile.name))
    && (req.department != "" ==> LikeOrNull(u.profile.department, Around(req.department)))
    && (req.position != "" ==> LikeOrNull(u.profile.position, Around(req.position)))
    && (req.loginOnly ==> HasSession(w, id))
  }

  /** A limit without an offset, or of zero, asks for everything. */
  function PageWanted(req: ListRequest): Option<(u64, u64)> {
    if req.offset.Some? && req.limit.Some? && req.limit.value != 0 then Some((req.offset.value, req.limit.value))
    else None
  }

  /** The filters a request asks for. */
  predicate Asked(req: ListRequest, f: Filter) {
    match f
    case Solution(solution, role) => req.solution != "" && solution == req.solution && role == req.role
    case InGroup(group) => req.group != 0 && group == req.group
    case ExcludeGroup(group) => req.excludeGroup != 0 && group == req.excludeGroup
    case Name(text) => req.name != "" && text == req.name
    case Department(text) => req.department != "" && text == req.department
    case Position(text) => req.position != "" && text == req.position
    case Page(offset, limit) => PageWanted(req) == Some((offset, limit))
    case LoggedIn => req.loginOnly
  }

  predicate OnText(f: Filter) {
    f.Name? || f.Department? || f.Position?
  }

  method MakeUserFilter(req: ListRequest) returns (filters: seq<Filter>)
    ensures Made(req, filters)
  {
    filters := [];
    if req.solution != "" {
      filters := filters + [Solution(req.solution, req.role)];
    }
    if req.group != 0 {
      filters := filters + [InGroup(req.group)];
    }
    if req.excludeGroup != 0 {
      filters := filters + [ExcludeGroup(req.excludeGroup)];
    }
    var texts := MakeTextFilters(req);
    filters := filters + texts;
    if req.offset.Some? && req.limit.Some? && req.limit.value != 0 {
      filters := filters + [Page(req.offset.value, req.limit.value)];
    }
    if req.loginOnly {
      filters := filters + [LoggedIn];
    }
  }

  method MakeTextFilters(req: ListRequest) returns (filters: seq<Filter>)
    ensures forall f :: f in filters <==> OnText(f) && Asked(req, f)
  {
    filters := [];
    if req.name != "" {
      filters := filters + [Name(req.name)];
    }
    if req.department != "" {
      filters := filters + [Department(req.department)];
    }
    if req.position != "" {
      filters := filters + [Position(req.position)];
    }
  }

  ghost predicate Made(req: ListRequest, filters: seq<Filter>) {
    forall f :: f in filters <==> Asked(req, f)
  }

  /** The filters made from a request mean what the request asks for. */
  lemma FiltersMean(w: World, req: ListRequest, filters: seq<Filter>, id: nat)
    requires id in w.db.users && Made(req, filters)
    ensures MeetsAll(w, filters, id) <==> Wanted(w, req, id)
  {
    if MeetsAll(w, filters, id) {
      assert req.solution != "" ==> Asked(req, Solution(req.solution, req.role));
      assert req.group != 0 ==> Asked(req, InGroup(req.group));
      assert req.excludeGroup != 0 ==> Asked(req, ExcludeGroup(req.excludeGroup));
      assert req.name != "" ==> Asked(req, Name(req.name));
      assert req.department != "" ==> Asked(req, Department(req.department));
      assert req.position != "" ==> Asked(req, Position(req.position));
      assert req.loginOnly ==> Asked(req, LoggedIn);
    }
  }

  lemma PageMade(req: ListRequest, filters: seq<Filter>)
    requires Made(req, filters)
    ensures PageOf(filters) == PageWanted(req)
  {
    LastPage(filters);
    if PageWanted(req).Some? {
      assert Asked(req, Page(PageWanted(req).value.0, PageWanted(req).value.1));
    }
  }

  datatype Reply = NoContent | Users(ids: seq<nat>, pagination: Pagination)

  /** The users of the tenant the request is about, in table order. */
  function WantedUsers(w: World, tid: nat, req: ListRequest): seq<nat> {
    Keep(w.rows, set id | id in w.db.users && w.db.users[id].tenant == tid && Wanted(w, req, id))
  }

  /** A group that is no signed number, sessions that cannot be listed, or a session of a negative id. */
  predicate RefusedRequest(w: World, req: ListRequest) {
    || req.group >= TWO_63 || req.excludeGroup >= TWO_63
    || (req.loginOnly && (w.sessions.Broken? || Unsendable(w, LoggedIn)))
  }

  lemma RefusedMade(w: World, req: ListRequest, filters: seq<Filter>)
    requires Made(req, filters)
    ensures Refused(w, filters) <==> RefusedRequest(w, req)
  {
    if RefusedRequest(w, req) {
      assert req.group >= TWO_63 ==> Asked(req, InGroup(req.group));
      assert req.excludeGroup >= TWO_63 ==> Asked(req, ExcludeGroup(req.excludeGroup));
      assert req.loginOnly ==> Asked(req, LoggedIn);
    }
  }

  predicate Answerable(w: World, tid: nat, req: ListRequest) {
    ValidateUserListGet(req).Pass? && tid in w.db.tenants && !RefusedRequest(w, req)
  }

  /** What a list request is answered with. */
  function Answer(w: World, tid: nat, req: ListRequest): Result<Reply, Error>
    requires Valid(w)
  {
    if ValidateUserListGet(req).Fail? then Failure(ValidateUserListGet(req).error)
    else if tid !in w.db.tenants then Failure(NotFoundTenant)
    else if RefusedRequest(w, req) then Failure(UnusableDatabase)
    else
      var page := PageWanted(req);
      if page.Some? && (page.value.0 >= TWO_63 || page.value.1 >= TWO_63) then Failure(UnusableDatabase)
      else
        var all := WantedUsers(w, tid, req);
        var ids := CutOut(all, page);
        if ids == [] then Success(NoContent)
        else Success(Users(ids, if page.Some? then Paginate(|all|, page.value.1, page.value.0)
                                else Paginate(|all|, 0, 0)))
  }

  lemma MadeMatches(w: World, tid: nat, req: ListRequest, filters: seq<Filter>)
    requires Made(req, filters)
    ensures Matching(w, tid, filters) == WantedUsers(w, tid, req)
  {
    forall id | id in w.db.users
      ensures MeetsAll(w, filters, id) <==> Wanted(w, req, id)
    {
      FiltersMean(w, req, filters, id);
    }
    assert (set id | id in w.db.users && w.db.users[id].tenant == tid && MeetsAll(w, filters, id))
        == (set id | id in w.db.users && w.db.users[id].tenant == tid && Wanted(w, req, id));
  }

  method HandleGetUsers(w: World, tid: nat, req: ListRequest) returns (r: Result<Reply, Error>)
    requires Valid(w)
    ensures r == Answer(w, tid, req)
    ensures r.Success? && r.value.Users? ==> Distinct(r.value.ids) && forall id | id in r.value.ids :: AskedFor(w, tid, req, id)
  {
    var valid := ValidateUserListGet(req);
    if valid.Fail? {
      return Failure(valid.error);
    }
    ListedIffAskedFor(w, tid, req);
    var filters := MakeUserFilter(req);
    MadeMatches(w, tid, req, filters);
    PageMade(req, filters);
    RefusedMade(w, req, filters);
    var users := GetUsers(w, tid, filters);
    if users.Failure? {
      return Failure(users.error);
    }
    if users.value == [] {
      return Success(NoContent);
    }
    var pagination := GetUsersPagination(w, tid, filters);
    return Success(Users(users.value, pagination.value));
  }

  // ----- walking through the pages -----

  function PageRequest(req: ListRequest, limit: u64, k: nat): ListRequest
    requires k * limit < TWO_64
  {
    req.(offset := Some(k * limit), limit := Some(limit))
  }

  predicate OffsetFits(limit: u64, k: nat) {
    k * limit < TWO_63
  }

  predicate Reachable(limit: u64, count: nat) {
    forall k | 0 <= k < count :: OffsetFits(limit, k)
  }

  function PageIds(w: World, tid: nat, req: ListRequest, limit: u64, k: nat): seq<nat>
    requires Valid(w) && OffsetFits(limit, k)
  {
    var answer := Answer(w, tid, PageRequest(req, limit, k));
    if answer.Success? && answer.value.Users? then answer.value.ids else []
  }

  /** The users a client collects from the first `count` pages. */
  function Collected(w: World, tid: nat, req: ListRequest, limit: u64, count: nat): seq<nat>
    requires Valid(w) && Reachable(limit, count)
  {
    if count == 0 then []
    else
      assert OffsetFits(limit, count - 1);
      Collected(w, tid, req, limit, count - 1) + PageIds(w, tid, req, limit, count - 1)
  }

  /** Asking for another page does not change who is asked for. */
  lemma PageAnswer(w: World, tid: nat, req: ListRequest, limit: u64, k: nat)
    requires Valid(w) && Answerable(w, tid, req) && 0 < limit < TWO_63 && k * limit < TWO_63
    ensures var all := WantedUsers(w, tid, req);
            var ids := Slice(all, k * limit, limit);
            Answer(w, tid, PageRequest(req, limit, k))
            == Success(if ids == [] then NoContent else Users(ids, Paginate(|all|, limit, k * limit)))
  {
    var page := PageRequest(req, limit, k);
    SameWanted(w, tid, req, page);
    assert PageWanted(page) == Some((k * limit, limit));
    assert ValidateUserListGet(page).Pass?;
  }

  lemma SameWanted(w: World, tid: nat, req: ListRequest, page: ListRequest)
    requires page == req.(offset := page.offset, limit := page.limit)
    ensures WantedUsers(w, tid, page) == WantedUsers(w, tid, req)
  {
    forall id | id in w.db.users
      ensures Wanted(w, page, id) == Wanted(w, req, id)
    {
    }
    assert (set id | id in w.db.users && w.db.users[id].tenant == tid && Wanted(w, page, id))
        == (set id | id in w.db.users && w.db.users[id].tenant == tid && Wanted(w, req, id));
  }

  lemma PageIsSlice(w: World, tid: nat, req: ListRequest, limit: u64, k: nat)
    requires Valid(w) && Answerable(w, tid, req) && 0 < limit < TWO_63 && OffsetFits(limit, k)
    ensures PageIds(w, tid, req, limit, k) == Slice(WantedUsers(w, tid, req), k * limit, limit)
  {
    PageAnswer(w, tid, req, limit, k);
  }

  lemma CollectedStep(w: World, tid: nat, req: ListRequest, limit: u64, k: nat, all: seq<nat>)
    requires Valid(w) && Answerable(w, tid, req) && 0 < limit < TWO_63 && Reachable(limit, k + 1)
    requires all == WantedUsers(w, tid, req)
    requires Collected(w, tid, req, limit, k) == Pages(all, limit, limit, k)
    ensures Collected(w, tid, req, limit, k + 1) == Pages(all, limit, limit, k + 1)
  {
    assert OffsetFits(limit, k);
    PageIsSlice(w, tid, req, limit, k);
  }

  lemma {:induction false} CollectedPages(w: World, tid: nat, req: ListRequest, limit: u64, count: nat, all: seq<nat>)
    requires Valid(w) && Answerable(w, tid, req) && 0 < limit < TWO_63 && Reachable(limit, count)
    requires all == WantedUsers(w, tid, req)
    ensures Collected(w, tid, req, limit, count) == Pages(all, limit, limit, count)
  {
    if count > 0 {
      var k := count - 1;
      assert k + 1 == count;
      CollectedPages(w, tid, req, limit, k, all);
      CollectedStep(w, tid, req, limit, k, all);
    }
  }

  /** A client that asks for one page after another has seen every user asked for, each exactly once
      and in order, just when he has asked for as many pages as the answers report. */
  lemma PagesCoverTheList(w: World, tid: nat, req: ListRequest, limit: u64, count: nat)
    requires Valid(w) && Answerable(w, tid, req) && 0 < limit < TWO_63 && Reachable(limit, count)
    ensures Collected(w, tid, req, limit, count) == WantedUsers(w, tid, req)
            <==> Paginate(|WantedUsers(w, tid, req)|, limit, 0).totalPage <= count
  {
    CollectedPages(w, tid, req, limit, count, WantedUsers(w, tid, req));
    PagesCoverIff(WantedUsers(w, tid, req), limit, 0, count);
  }

  lemma OffsetWithinTotal(total: u64, limit: u64, k: nat)
    requires limit > 0 && total + limit - 1 < TWO_64 && k < Paginate(total, limit, 0).totalPage
    ensures k * limit < total
  {
    PageCount(total, limit, 0);
    var n := Paginate(total, limit, 0).totalPage;
    if k < n - 1 {
      MulOrder(k, n - 1, limit);
    }
  }

  lemma PageWithinTotal(total: u64, limit: u64, k: nat)
    requires limit > 0 && total + limit - 1 < TWO_64 && k < Paginate(total, limit, 0).totalPage
    ensures k * limit < total
    ensures Paginate(total, limit, k * limit) == Pagination(k + 1, Paginate(total, limit, 0).totalPage, total)
  {
    OffsetWithinTotal(total, limit, k);
    ExactQuotient(k, limit);
    PageOfOffset(total, limit, k * limit);
  }

  /** Every page up to the reported count is answered with users and says so consistently. */
  lemma EveryPageAnswers(w: World, tid: nat, req: ListRequest, limit: u64, k: nat)
    requires Valid(w) && Answerable(w, tid, req) && 0 < limit < TWO_63
    requires k < Paginate(|WantedUsers(w, tid, req)|, limit, 0).totalPage
    ensures k * limit < TWO_63
    ensures var all := WantedUsers(w, tid, req);
            Answer(w, tid, PageRequest(req, limit, k))
            == Success(Users(Slice(all, k * limit, limit),
                             Pagination(k + 1, Paginate(|all|, limit, 0).totalPage, |all|)))
  {
    var all := WantedUsers(w, tid, req);
    PageWithinTotal(|all|, limit, k);
    PageAnswer(w, tid, req, limit, k);
    assert |Slice(all, k * limit, limit)| > 0;
  }

  lemma ExactQuotient(k: nat, d: nat)
    requires d > 0
    ensures (k * d) / d == k
  {
    var q := (k * d) / d;
    QuotientBelow(k * d, k * d + 1, k + 1, d);
    if q < k {
      MulOrder(q, k, d);
    }
  }

  // ----- who is logged in -----

  function StoreKey(id: nat): string {
    STORE_KEY_PREFIX + "." + PrintNat(id)
  }

  /** The store key of a user is read back as his id, so listing the store finds exactly the users
      with a session, whatever else lies under the prefix without ending in a number. */
  lemma SessionsListed(w: World, owners: set<nat>, id: nat)
    requires w.sessions.Listed? && id < TWO_63
    requires forall o | o in owners :: o < TWO_63 && StoreKey(o) in w.sessions.keys
    requires forall k | k in w.sessions.keys && SessionOwner(k).Some? :: exists o | o in owners :: k == StoreKey(o)
    ensures HasSession(w, id) <==> id in owners
  {
    forall o | o in owners
      ensures SessionOwner(StoreKey(o)) == Some(o)
    {
      OwnerReadBack(o);
    }
  }

  lemma OwnerReadBack(id: nat)
    requires id < TWO_63
    ensures SessionOwner(StoreKey(id)) == Some(id)
  {
    var prefix := STORE_KEY_PREFIX + ".";
    assert StoreKey(id)[|prefix|..] == PrintNat(id);
    PrintedIntParses(id);
  }

  // ----- what the list shows -----

  /** Does `a` stand before `b`? */
  ghost predicate Before(rows: seq<nat>, a: nat, b: nat) {
    exists i, j | 0 <= i < j < |rows| :: rows[i] == a && rows[j] == b
  }

  lemma BeforeInTail(rows: seq<nat>, a: nat, b: nat)
    requires rows != [] && Before(rows[1..], a, b)
    ensures Before(rows, a, b)
  {
    var i, j :| 0 <= i < j < |rows| - 1 && rows[1..][i] == a && rows[1..][j] == b;
    assert rows[i + 1] == a && rows[j + 1] == b;
  }

  /** Keeping rows keeps their order and repeats none. */
  lemma {:induction false} KeepInOrder(rows: seq<nat>, wanted: set<nat>)
    requires Distinct(rows)
    ensures Distinct(Keep(rows, wanted))
    ensures forall i, j | 0 <= i < j < |Keep(rows, wanted)| :: Before(rows, Keep(rows, wanted)[i], Keep(rows, wanted)[j])
  {
    if rows != [] {
      var kept, tail := Keep(rows, wanted), Keep(rows[1..], wanted);
      KeepInOrder(rows[1..], wanted);
      forall i, j | 0 <= i < j < |kept|
        ensures kept[i] != kept[j] && Before(rows, kept[i], kept[j])
      {
        if rows[0] in wanted && i == 0 {
          assert kept[j] == tail[j - 1] && kept[j] in rows[1..];
          var k :| 0 <= k < |rows| - 1 && rows[1..][k] == kept[j];
          assert rows[0] == kept[0] && rows[k + 1] == kept[j];
        } else {
          var d := if rows[0] in wanted then 1 else 0;
          assert kept[i] == tail[i - d] && kept[j] == tail[j - d];
          BeforeInTail(rows, kept[i], kept[j]);
        }
      }
    }
  }

  /** What a request asks of a user, by the columns and rows of the tables. */
  predicate AskedFor(w: World, tid: nat, req: ListRequest, id: nat) {
    && id in w.db.users
    && var u := w.db.users[id];
    && u.tenant == tid
    && (req.solution != "" ==>
          exists r | r in w.db.roles :: && w.db.roles[r].solution == req.solution
                                        && (req.role == "" || w.db.roles[r].role == req.role)
                                        && (id, r) in w.db.userRoles)
    && (req.group != 0 ==> (id, req.group) in w.db.userGroups)
    && (req.excludeGroup != 0 ==> (id, req.excludeGroup) !in w.db.userGroups)
    && (req.name != "" ==> Matches("%" + req.name + "%", u.profile.name))
    && (req.department != "" ==>
          u.profile.department.Some? && Matches("%" + req.department + "%", u.profile.department.value))
    && (req.position != "" ==>
          u.profile.position.Some? && Matches("%" + req.position + "%", u.profile.position.value))
    && (req.loginOnly ==>
          w.sessions.Listed? && exists k | k in w.sessions.keys :: SessionOwner(k) == Some(id))
  }

  lemma WantedIffAskedFor(w: World, tid: nat, req: ListRequest, id: nat)
    ensures AskedFor(w, tid, req, id) <==> id in w.db.users && w.db.users[id].tenant == tid && Wanted(w, req, id)
  {
  }

  /** The whole list holds exactly the users asked for, each once, in table order. */
  lemma ListedIffAskedFor(w: World, tid: nat, req: ListRequest)
    requires Valid(w)
    ensures var all := WantedUsers(w, tid, req);
            && (forall id :: id in all <==> AskedFor(w, tid, req, id))
            && Distinct(all)
            && (forall i, j | 0 <= i < j < |all| :: Before(w.rows, all[i], all[j]))
  {
    KeepInOrder(w.rows, set id | id in w.db.users && w.db.users[id].tenant == tid && Wanted(w, req, id));
    forall id
      ensures id in WantedUsers(w, tid, req) <==> AskedFor(w, tid, req, id)
    {
      WantedIffAskedFor(w, tid, req, id);
    }
  }

  /** A request that can be answered and asks for no page gets all of them, as one page; without any there is
      no content. */
  lemma UnpagedAnswer(w: World, tid: nat, req: ListRequest)
    requires Valid(w) && Answerable(w, tid, req) && (req.offset.None? || req.limit.None? || req.limit == Some(0))
    ensures var r := Answer(w, tid, req);
            && r.Success?
            && (r.value.NoContent? <==> forall id | id in w.db.users :: !AskedFor(w, tid, req, id))
            && (r.value.Users? ==>
                  && Distinct(r.value.ids) && (forall id :: id in r.value.ids <==> AskedFor(w, tid, req, id))
                  && r.value.pagination == Pagination(1, 1, |r.value.ids|))
  {
    ListedIffAskedFor(w, tid, req);
    var all := WantedUsers(w, tid, req);
    if all != [] {
      assert all[0] in all;
    }
  }

  /** Collecting the reported pages of any size gives exactly the users asked for, each exactly once. */
  lemma EverybodyCollectedOnce(w: World, tid: nat, req: ListRequest, limit: u64)
    requires Valid(w) && Answerable(w, tid, req) && 0 < limit < TWO_63
    ensures var n := Paginate(|WantedUsers(w, tid, req)|, limit, 0).totalPage;
            && Reachable(limit, n)
            && Distinct(Collected(w, tid, req, limit, n))
            && forall id :: id in Collected(w, tid, req, limit, n) <==> AskedFor(w, tid, req, id)
  {
    var total := |WantedUsers(w, tid, req)|;
    var n := Paginate(total, limit, 0).totalPage;
    forall k | 0 <= k < n
      ensures OffsetFits(limit, k)
    {
      OffsetWithinTotal(total, limit, k);
    }
    PagesCoverTheList(w, tid, req, limit, n);
    ListedIffAskedFor(w, tid, req);
  }

  /** When a request can be answered at all. */
  lemma AnswerableIff(w: World, tid: nat, req: ListRequest)
    requires Valid(w)
    ensures Answerable(w, tid, req)
            <==> && |req.solution| <= 30 && |req.name| <= 255 && |req.department| <= 255 && |req.position| <= 255
                 && (req.role == "" || req.role == "manager" || req.role == "operator" || req.role == "viewer")
                 && tid in w.db.tenants && req.group < TWO_63 && req.excludeGroup < TWO_63
                 && (req.loginOnly ==>
                       && !w.sessions.Broken?
                       && (w.sessions.Listed? ==> forall k | k in w.sessions.keys && SessionOwner(k).Some? ::
                             SessionOwner(k).value < TWO_63))
    ensures !Answerable(w, tid, req) ==> Answer(w, tid, req).Failure?
  {
  }
}
