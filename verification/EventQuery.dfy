/** The event list: the query builder with its clamped limit, the query it runs, and the page
    numbers reported beside the rows. */
module EventQuery {
  import opened Results
  import opened Decimal
  import opened Paging
  import opened Utf8

  const LEAST_LIMIT: u64 := 10
  const GREATEST_LIMIT: u64 := 100

  datatype Event = Event(tenant: nat, code: string, createdAt: int)

  datatype EventCode = EventCode(solution: string, level: string, class1: string, class2: string, class3: string)

  datatype EventDb = EventDb(tenants: set<nat>, codes: map<string, EventCode>, events: map<nat, Event>)

  /** Zero and empty values ask for nothing. */
  datatype Criteria = Criteria(
    limit: u64,
    offset: u64,
    tenant: nat,
    solution: string,
    level: string,
    class1: string,
    class2: string,
    class3: string,
    from: int,
    to: int)

  function Clamp(limit: u64): (r: u64)
    ensures 10 <= r <= 100
    ensures 10 <= limit <= 100 ==> r == limit
  {
    if limit < LEAST_LIMIT then LEAST_LIMIT else if limit > GREATEST_LIMIT then GREATEST_LIMIT else limit
  }

  class EventsQuery {
    var limit: u64
    var offset: u64
    const tenant: nat
    var solution: string
    var level: string
    var class1: string
    var class2: string
    var class3: string
    var from: int
    var to: int

    constructor (tenant: nat)
      ensures Value() == Criteria(0, 0, tenant, "", "", "", "", "", 0, 0)
    {
      this.tenant := tenant;
      limit, offset, solution, level := 0, 0, "", "";
      class1, class2, class3, from, to := "", "", "", 0, 0;
    }

    function Value(): Criteria
      reads this
    {
      Criteria(limit, offset, tenant, solution, level, class1, class2, class3, from, to)
    }

    method Limit(limit: u64) returns (q: EventsQuery)
      modifies this`limit
      ensures q == this && Value() == old(Value()).(limit := Clamp(limit))
    {
      if limit < LEAST_LIMIT {
        this.limit := LEAST_LIMIT;
      } else if limit > GREATEST_LIMIT {
        this.limit := GREATEST_LIMIT;
      } else {
        this.limit := limit;
      }
      return this;
    }

    method Offset(offset: u64) returns (q: EventsQuery)
      modifies this`offset
      ensures q == this && Value() == old(Value()).(offset := offset)
    {
      this.offset := offset;
      return this;
    }

    method From(from: int) returns (q: EventsQuery)
      modifies this`from
      ensures q == this && Value() == old(Value()).(from := from)
    {
      this.from := from;
      return this;
    }

    method To(to: int) returns (q: EventsQuery)
      modifies this`to
      ensures q == this && Value() == old(Value()).(to := to)
    {
      this.to := to;
      return this;
    }

    method Solutions(solution: string) returns (q: EventsQuery)
      modifies this`solution
      ensures q == this && Value() == old(Value()).(solution := solution)
    {
      this.solution := solution;
      return this;
    }

    method Level(level: string) returns (q: EventsQuery)
      modifies this`level
      ensures q == this && Value() == old(Value()).(level := level)
    {
      this.level := level;
      return this;
    }

    method Class1(class1: string) returns (q: EventsQuery)
      modifies this`class1
      ensures q == this && Value() == old(Value()).(class1 := class1)
    {
      this.class1 := class1;
      return this;
    }

    method Class2(class2: string) returns (q: EventsQuery)
      modifies this`class2
      ensures q == this && Value() == old(Value()).(class2 := class2)
    {
      this.class2 := class2;
      return this;
    }

    method Class3(class3: string) returns (q: EventsQuery)
      modifies this`class3
      ensures q == this && Value() == old(Value()).(class3 := class3)
    {
      this.class3 := class3;
      return this;
    }
  }

  // ----- conditions -----

  datatype Condition =
    | TenantIs(tenant: nat)
    | SolutionIs(solution: string)
    | CodeIs(level: string, class1: string, class2: string, class3: string)
    | NotBefore(time: int)
    | NotAfter(time: int)

  predicate Asks(wanted: string, actual: string) {
    wanted == "" || wanted == actual
  }

  /** The event code is joined from the left: an event of an unknown code has no solution and no class. */
  predicate Holds(db: EventDb, c: Condition, e: Event) {
    match c
    case TenantIs(tenant) => e.tenant == tenant
    case SolutionIs(solution) => e.code in db.codes && db.codes[e.code].solution == solution
    case CodeIs(level, class1, class2, class3) =>
      e.code in db.codes && Asks(level, db.codes[e.code].level) && Asks(class1, db.codes[e.code].class1)
      && Asks(class2, db.codes[e.code].class2) && Asks(class3, db.codes[e.code].class3)
    case NotBefore(time) => e.createdAt >= time
    case NotAfter(time) => e.createdAt <= time
  }

  function Where(db: EventDb, conditions: seq<Condition>): set<nat> {
    set id | id in db.events && db.events[id].tenant in db.tenants
             && forall c | c in conditions :: Holds(db, c, db.events[id])
  }

  /** What the criteria ask of an event. */
  predicate Wanted(db: EventDb, q: Criteria, id: nat)
    requires id in db.events
  {
    var e := db.events[id];
    && e.tenant in db.tenants
    && (q.tenant != 0 ==> e.tenant == q.tenant)
    && (q.from != 0 ==> q.from <= e.createdAt)
    && (q.to != 0 ==> e.createdAt <= q.to)
    && (q.solution != "" || q.level != "" || q.class1 != "" || q.class2 != "" || q.class3 != "" ==>
          && e.code in db.codes
          && var code := db.codes[e.code];
             Asks(q.solution, code.solution) && Asks(q.level, code.level) && Asks(q.class1, code.class1)
             && Asks(q.class2, code.class2) && Asks(q.class3, code.class3))
  }

  function WantedEvents(db: EventDb, q: Criteria): set<nat> {
    set id | id in db.events && Wanted(db, q, id)
  }

  // ----- order -----

  predicate Newer(db: EventDb, i: nat, j: nat)
    requires i in db.events && j in db.events
  {
    db.events[i].createdAt > db.events[j].createdAt
    || (db.events[i].createdAt == db.events[j].createdAt && i > j)
  }

  ghost predicate IsNewest(db: EventDb, ids: set<nat>, m: nat)
    requires ids <= db.events.Keys
  {
    m in ids && forall x | x in ids :: x == m || Newer(db, m, x)
  }

  lemma {:induction false} NewestExists(db: EventDb, ids: set<nat>)
    requires ids <= db.events.Keys && ids != {}
    ensures exists m :: IsNewest(db, ids, m)
  {
    var e :| e in ids;
    if ids == {e} {
      assert IsNewest(db, ids, e);
    } else {
      var rest := ids - {e};
      assert ids == rest + {e};
      NewestExists(db, rest);
      var m :| IsNewest(db, rest, m);
      var newest := if Newer(db, e, m) then e else m;
      forall x | x in ids
        ensures x == newest || Newer(db, newest, x)
      {
        if x != e {
          assert x in rest;
        }
      }
      assert IsNewest(db, ids, newest);
    }
  }

  /** The ids sorted by creation time and then by id, both descending. */
  ghost function Sorted(db: EventDb, ids: set<nat>): seq<nat>
    requires ids <= db.events.Keys
  {
    if ids == {} then []
    else
      NewestExists(db, ids);
      var m :| IsNewest(db, ids, m);
      [m] + Sorted(db, ids - {m})
  }

  ghost predicate IsListing(db: EventDb, ids: set<nat>, rows: seq<nat>)
    requires ids <= db.events.Keys
  {
    && (forall id :: id in rows <==> id in ids)
    && (forall i, j | 0 <= i < j < |rows| :: Newer(db, rows[i], rows[j]))
  }

  lemma SortedFirst(db: EventDb, ids: set<nat>) returns (m: nat)
    requires ids <= db.events.Keys && ids != {}
    ensures IsNewest(db, ids, m) && Sorted(db, ids) == [m] + Sorted(db, ids - {m})
  {
    NewestExists(db, ids);
    m := Sorted(db, ids)[0];
  }

  /** The newest event before a listing of the others makes a listing. */
  lemma NewestFirst(db: EventDb, ids: set<nat>, m: nat, rest: seq<nat>)
    requires ids <= db.events.Keys && IsNewest(db, ids, m) && IsListing(db, ids - {m}, rest)
    ensures IsListing(db, ids, [m] + rest)
  {
    var rows := [m] + rest;
    forall id
      ensures id in rows <==> id in ids
    {
    }
    forall i, j | 0 <= i < j < |rows|
      ensures Newer(db, rows[i], rows[j])
    {
      assert rows[j] == rest[j - 1] && rest[j - 1] in rest;
    }
  }

  lemma ListingIsDistinct(db: EventDb, ids: set<nat>, rows: seq<nat>)
    requires ids <= db.events.Keys && IsListing(db, ids, rows)
    ensures Distinct(rows)
  {
  }

  lemma {:induction false} SortedIsListing(db: EventDb, ids: set<nat>)
    requires ids <= db.events.Keys
    ensures IsListing(db, ids, Sorted(db, ids)) && |Sorted(db, ids)| == |ids| && Distinct(Sorted(db, ids))
  {
    if ids != {} {
      var m := SortedFirst(db, ids);
      SortedIsListing(db, ids - {m});
      NewestFirst(db, ids, m, Sorted(db, ids - {m}));
    }
    ListingIsDistinct(db, ids, Sorted(db, ids));
  }

  /** The order leaves no choice: there is one listing of a set of events. */
  lemma {:induction false} OneListing(db: EventDb, ids: set<nat>, rows: seq<nat>)
    requires ids <= db.events.Keys && IsListing(db, ids, rows)
    ensures rows == Sorted(db, ids)
    decreases |rows|
  {
    if rows == [] {
      assert ids == {};
    } else {
      var m := rows[0];
      assert m in ids;
      forall x | x in ids
        ensures x == m || Newer(db, m, x)
      {
        assert x in rows;
      }
      assert Sorted(db, ids)[0] == m;
      assert rows == [m] + rows[1..];
      forall id
        ensures id in rows[1..] <==> id in ids - {m}
      {
        if id in rows[1..] {
          assert Newer(db, m, id);
        }
      }
      OneListing(db, ids - {m}, rows[1..]);
    }
  }

  // ----- the request -----

  datatype Answer = NoContent | Events(ids: seq<nat>, pagination: Pagination)

  /** What the query finds and how many events it counts; an offset that is no signed 64-bit number
      is refused, a limit or offset of zero is not sent. */
  ghost function Find(db: EventDb, q: Criteria): (r: Result<(seq<nat>, nat), Error>)
    ensures r.Success? ==> r.value.1 <= |db.events|
  {
    CountedWithin(db, q);
    var rows := Sorted(db, WantedEvents(db, q));
    if q.offset >= TWO_63 || q.limit >= TWO_63 then Failure(UnusableDatabase)
    else Success((Slice(rows, q.offset, if q.limit == 0 then |rows| else q.limit), |rows|))
  }

  /** The database: events that meet every condition, in the order asked for. */
  method Scan(db: EventDb, conditions: seq<Condition>) returns (rows: seq<nat>)
    ensures IsListing(db, Where(db, conditions), rows) && |rows| == |Where(db, conditions)|
  {
    var rest := Where(db, conditions);
    rows := [];
    while rest != {}
      invariant rest <= Where(db, conditions)
      invariant forall id :: id in rows <==> id in Where(db, conditions) - rest
      invariant forall i | 0 <= i < |rows| :: rows[i] in db.events
      invariant forall i, j | 0 <= i < j < |rows| :: Newer(db, rows[i], rows[j])
      invariant forall i, id | 0 <= i < |rows| && id in rest :: Newer(db, rows[i], id)
      invariant |rows| + |rest| == |Where(db, conditions)|
    {
      NewestExists(db, rest);
      var m :| m in rest && forall x | x in rest :: x == m || Newer(db, m, x);
      rows := rows + [m];
      rest := rest - {m};
    }
    assert Where(db, conditions) - rest == Where(db, conditions);
  }

  predicate OnCode(c: Condition) {
    c.SolutionIs? || c.CodeIs?
  }

  method MakeCodeConditions(query: EventsQuery) returns (conditions: seq<Condition>)
    ensures forall c :: c in conditions <==> OnCode(c) && Conditional(query.Value(), c)
  {
    conditions := [];
    if query.solution != "" {
      conditions := conditions + [SolutionIs(query.solution)];
    }
    if query.level != "" || query.class1 != "" || query.class2 != "" || query.class3 != "" {
      conditions := conditions + [CodeIs(query.level, query.class1, query.class2, query.class3)];
    }
  }

  method MakeConditions(query: EventsQuery) returns (conditions: seq<Condition>)
    ensures forall c :: c in conditions <==> Conditional(query.Value(), c)
  {
    conditions := [];
    if query.tenant != 0 {
      conditions := conditions + [TenantIs(query.tenant)];
    }
    var onCode := MakeCodeConditions(query);
    conditions := conditions + onCode;
    if query.from != 0 {
      conditions := conditions + [NotBefore(query.from)];
    }
    if query.to != 0 {
      conditions := conditions + [NotAfter(query.to)];
    }
  }

  method GetEvents(db: EventDb, query: EventsQuery) returns (r: Result<(seq<nat>, nat), Error>)
    ensures r == Find(db, query.Value())
    ensures r.Success? ==> (forall id | id in r.value.0 :: AskedFor(db, query.Value(), id)) && LatestFirst(db, r.value.0)
  {
    var conditions := MakeConditions(query);
    ConditionsMean(db, query.Value(), conditions);
    var rows := Scan(db, conditions);
    OneListing(db, Where(db, conditions), rows);
    var count := |rows|;
    if query.limit >= TWO_63 || query.offset >= TWO_63 {
      return Failure(UnusableDatabase);
    }
    var offset := if query.offset > 0 then query.offset else 0;
    var limit := if query.limit > 0 then query.limit else |rows|;
    PageIsListed(db, query.Value(), offset, limit);
    return Success((Slice(rows, offset, limit), count));
  }

  predicate Conditional(q: Criteria, c: Condition) {
    match c
    case TenantIs(tenant) => q.tenant != 0 && tenant == q.tenant
    case SolutionIs(solution) => q.solution != "" && solution == q.solution
    case CodeIs(level, class1, class2, class3) =>
      (q.level != "" || q.class1 != "" || q.class2 != "" || q.class3 != "")
      && level == q.level && class1 == q.class1 && class2 == q.class2 && class3 == q.class3
    case NotBefore(time) => q.from != 0 && time == q.from
    case NotAfter(time) => q.to != 0 && time == q.to
  }

  /** The conditions made from the criteria select the events the criteria ask for. */
  lemma ConditionsMean(db: EventDb, q: Criteria, conditions: seq<Condition>)
    requires forall c :: c in conditions <==> Conditional(q, c)
    ensures Where(db, conditions) == WantedEvents(db, q)
  {
    forall id | id in db.events
      ensures id in Where(db, conditions) <==> id in WantedEvents(db, q)
    {
      if id in Where(db, conditions) {
        assert q.tenant != 0 ==> Conditional(q, TenantIs(q.tenant));
        assert q.solution != "" ==> Conditional(q, SolutionIs(q.solution));
        assert q.level != "" || q.class1 != "" || q.class2 != "" || q.class3 != "" ==>
          Conditional(q, CodeIs(q.level, q.class1, q.class2, q.class3));
        assert q.from != 0 ==> Conditional(q, NotBefore(q.from));
        assert q.to != 0 ==> Conditional(q, NotAfter(q.to));
      }
    }
  }

  /** The handler clamps the limit of the query but counts pages with the limit as requested. */
  ghost function Reply(db: EventDb, q: Criteria): Result<Answer, Error>
    requires |db.events| < TWO_63
  {
    var found :- Find(db, q.(limit := Clamp(q.limit)));
    if found.1 == 0 then Success(NoContent)
    else Success(Events(found.0, Paginate(found.1, q.limit, q.offset)))
  }

  lemma CountedWithin(db: EventDb, q: Criteria)
    ensures |Sorted(db, WantedEvents(db, q))| <= |db.events|
  {
    SortedIsListing(db, WantedEvents(db, q));
    SubsetSize(WantedEvents(db, q), db.events.Keys);
  }

  lemma {:induction false} SubsetSize(a: set<nat>, b: set<nat>)
    requires a <= b
    ensures |a| <= |b|
  {
    if a != {} {
      var x :| x in a;
      SubsetSize(a - {x}, b - {x});
    }
  }

  method AnswerEvents(db: EventDb, q: Criteria) returns (r: Result<Answer, Error>)
    requires |db.events| < TWO_63
    ensures r == Reply(db, q)
  {
    var query := new EventsQuery(q.tenant);
    query := query.Limit(q.limit);
    query := query.Offset(q.offset);
    query := query.Solutions(q.solution);
    query := query.From(q.from);
    query := query.To(q.to);
    query := query.Level(q.level);
    query := query.Class1(q.class1);
    query := query.Class2(q.class2);
    query := query.Class3(q.class3);
    var found := GetEvents(db, query);
    if found.Failure? {
      return Failure(found.error);
    }
    if found.value.1 == 0 {
      return Success(NoContent);
    }
    return Success(Events(found.value.0, Paginate(found.value.1, q.limit, q.offset)));
  }

  // ----- the checks before -----

  const SOLUTION_NAME := "CDM-Cloud"
  const MANAGER := "manager"
  const ADMIN := "admin"
  const LEVELS := ["trace", "info", "warn", "error", "fatal"]
  const TEXT_BYTES := 100

  datatype CallerRole = CallerRole(solution: string, role: string)

  /** Dates are numbers of twelve digits, YYYYMMDDHHmm; zero asks for nothing. */
  datatype EventsRequest = EventsRequest(criteria: Criteria, startDate: int, endDate: int)

  predicate MayRead(roles: seq<CallerRole>) {
    exists r | r in roles :: r.role == MANAGER || r.role == ADMIN || r.solution == SOLUTION_NAME
  }

  method CheckAuthorization(roles: seq<CallerRole>) returns (ok: bool)
    ensures ok == MayRead(roles)
    ensures ok <==> exists r | r in roles :: r.role == "manager" || r.role == "admin" || r.solution == "CDM-Cloud"
  {
    for i := 0 to |roles|
      invariant forall k | 0 <= k < i ::
        roles[k].role != MANAGER && roles[k].role != ADMIN && roles[k].solution != SOLUTION_NAME
    {
      if roles[i].role == MANAGER || roles[i].role == ADMIN {
        return true;
      }
      if roles[i].solution == SOLUTION_NAME {
        return true;
      }
    }
    return false;
  }

  /** Texts are measured in bytes; the limit is never refused. */
  function ValidateGetEventsParams(q: Criteria): (r: Outcome<Error>)
    ensures r.Pass? <==> && ByteLength(q.solution) <= 100 && ByteLength(q.class1) <= 100
                         && ByteLength(q.class2) <= 100 && ByteLength(q.class3) <= 100
                         && q.level in ["", "trace", "info", "warn", "error", "fatal"]
  {
    if ByteLength(q.solution) > TEXT_BYTES then Fail(LengthOverflow("solution"))
    else if ByteLength(q.class1) > TEXT_BYTES then Fail(LengthOverflow("class_1"))
    else if ByteLength(q.class2) > TEXT_BYTES then Fail(LengthOverflow("class_2"))
    else if ByteLength(q.class3) > TEXT_BYTES then Fail(LengthOverflow("class_3"))
    else if q.level != "" && q.level !in LEVELS then Fail(UnavailableParameterValue("level"))
    else Pass
  }

  /** `clock` reads a date of the service's time zone as seconds, when it is one. The dates are compared as
      written, and only when there is an end. */
  function ValidDates(clock: int -> Option<int>, startDate: int, endDate: int): (r: Result<(int, int), Error>)
    ensures r.Success? <==> && (startDate != 0 ==> clock(startDate).Some?)
                            && (endDate != 0 ==> clock(endDate).Some? && startDate <= endDate)
    ensures r.Success? ==> r.value == (if startDate != 0 then clock(startDate).value else 0,
                                       if endDate != 0 then clock(endDate).value else 0)
  {
    if startDate != 0 && clock(startDate).None? then Failure(InvalidParameterValue("start_date"))
    else
      var from := if startDate != 0 then clock(startDate).value else 0;
      if endDate == 0 then Success((from, 0))
      else match clock(endDate)
        case None => Failure(InvalidParameterValue("end_date"))
        case Some(to) => if startDate > endDate then Failure(InvalidParameterValue("start_date")) else Success((from, to))
  }

  /** What an events request is answered with: the checks in their order, then the events of the tenant. */
  ghost function HandledEvents(db: EventDb, clock: int -> Option<int>, roles: seq<CallerRole>, req: EventsRequest)
    : Result<Answer, Error>
    requires |db.events| < TWO_63
  {
    if !MayRead(roles) then Failure(NoSolutionRole)
    else match ValidateGetEventsParams(req.criteria)
      case Fail(e) => Failure(e)
      case Pass =>
        match ValidDates(clock, req.startDate, req.endDate)
        case Failure(e) => Failure(e)
        case Success((from, to)) => Reply(db, req.criteria.(from := from, to := to))
  }

  method HandleGetEvents(db: EventDb, clock: int -> Option<int>, roles: seq<CallerRole>, req: EventsRequest)
    returns (r: Result<Answer, Error>)
    requires |db.events| < TWO_63
    ensures r == HandledEvents(db, clock, roles, req)
  {
    var authorized := CheckAuthorization(roles);
    if !authorized {
      return Failure(NoSolutionRole);
    }
    var valid := ValidateGetEventsParams(req.criteria);
    if valid.Fail? {
      return Failure(valid.error);
    }
    var dates := ValidDates(clock, req.startDate, req.endDate);
    if dates.Failure? {
      return Failure(dates.error);
    }
    r := AnswerEvents(db, req.criteria.(from := dates.value.0, to := dates.value.1));
  }

  // ----- walking through the pages -----

  /** The events a client collects when he asks for `count` pages of `limit` events each. */
  ghost function Collected(db: EventDb, q: Criteria, limit: u64, count: nat): seq<nat>
    requires |db.events| < TWO_63 && (count > 0 ==> (count - 1) * limit < TWO_63)
  {
    if count == 0 then []
    else
      var k := count - 1;
      assert (k - 1) * limit == k * limit - limit;
      Collected(db, q, limit, k) + PageAt(db, q, limit, k * limit)
  }

  ghost function PageAt(db: EventDb, q: Criteria, limit: u64, offset: u64): seq<nat>
    requires |db.events| < TWO_63
  {
    var reply := Reply(db, q.(limit := limit, offset := offset));
    if reply.Success? && reply.value.Events? then reply.value.ids else []
  }

  /** Asking for another page does not change what is asked for. */
  lemma SameWanted(db: EventDb, q: Criteria, page: Criteria)
    requires page == q.(limit := page.limit, offset := page.offset)
    ensures WantedEvents(db, page) == WantedEvents(db, q)
  {
  }

  lemma PageFound(db: EventDb, q: Criteria, limit: u64, offset: u64)
    requires offset < TWO_63
    ensures var rows := Sorted(db, WantedEvents(db, q));
            Find(db, q.(limit := Clamp(limit), offset := offset))
            == Success((Slice(rows, offset, Clamp(limit)), |rows|))
  {
    SameWanted(db, q, q.(limit := Clamp(limit), offset := offset));
  }

  lemma PageIsSlice(db: EventDb, q: Criteria, limit: u64, offset: u64)
    requires |db.events| < TWO_63 && offset < TWO_63
    ensures PageAt(db, q, limit, offset) == Slice(Sorted(db, WantedEvents(db, q)), offset, Clamp(limit))
  {
    PageFound(db, q, limit, offset);
    var page := q.(limit := limit, offset := offset);
    assert page.(limit := Clamp(page.limit)) == q.(limit := Clamp(limit), offset := offset);
  }

  lemma {:induction false} CollectedPages(db: EventDb, q: Criteria, limit: u64, count: nat, all: seq<nat>)
    requires |db.events| < TWO_63 && (count > 0 ==> (count - 1) * limit < TWO_63)
    requires all == Sorted(db, WantedEvents(db, q))
    ensures Collected(db, q, limit, count) == Pages(all, limit, Clamp(limit), count)
  {
    if count > 0 {
      var k := count - 1;
      assert (k - 1) * limit == k * limit - limit;
      CollectedPages(db, q, limit, k, all);
      PageIsSlice(db, q, limit, k * limit);
    }
  }

  /** Do the pages hold all the events, each once? */
  predicate CoversAll(total: nat, limit: u64) {
    || total == 0
    || LEAST_LIMIT <= limit <= GREATEST_LIMIT
    || (total <= Min(if limit == 0 then LEAST_LIMIT else limit, GREATEST_LIMIT) && total + limit - 1 < TWO_64)
  }

  lemma OnePage<T>(all: seq<T>, step: nat, size: nat)
    ensures Pages(all, step, size, 1) == all[..Min(size, |all|)]
  {
    assert Pages(all, step, size, 1) == Pages(all, step, size, 0) + Slice(all, 0, size);
  }

  /** How many pages a limit outside the clamped range makes: none, one or more. */
  lemma PageCountOutside(total: u64, limit: u64)
    requires 0 < total < TWO_63 && !(LEAST_LIMIT <= limit <= GREATEST_LIMIT)
    ensures var n := Paginate(total, limit, 0).totalPage;
            if limit == 0 then n == 1
            else if total + limit - 1 >= TWO_64 then n == 0
            else (n == 1 <==> total <= limit) && n >= 1
  {
    if limit > 0 && total + limit - 1 < TWO_64 {
      var n := Paginate(total, limit, 0).totalPage;
      PageCount(total, limit, 0);
      if n > 1 {
        MulOrder(0, n - 1, limit);
      }
      assert 1 * limit == limit;
    } else if limit > 0 {
      assert Wrap(total + limit - 1) == total + limit - 1 - TWO_64;
      SmallQuotient(total + limit - 1 - TWO_64, limit);
    }
  }

  lemma SmallQuotient(x: nat, d: nat)
    requires x < d
    ensures x / d == 0
  {
  }

  lemma CoverageOfPages(all: seq<nat>, limit: u64)
    requires |all| < TWO_63 && Distinct(all)
    ensures Pages(all, limit, Clamp(limit), Paginate(|all|, limit, 0).totalPage) == all <==> CoversAll(|all|, limit)
  {
    var n := Paginate(|all|, limit, 0).totalPage;
    if LEAST_LIMIT <= limit <= GREATEST_LIMIT {
      PagesCoverIff(all, limit, 0, n);
    } else if all == [] {
      NothingToCover(limit, Clamp(limit), n);
    } else {
      PageCountOutside(|all|, limit);
      OnePage(all, limit, Clamp(limit));
      if n >= 2 {
        WrongStepMismatch(all, limit, Clamp(limit), n);
      }
    }
  }

  lemma {:induction false} NothingToCover(step: nat, size: nat, count: nat)
    ensures Pages<nat>([], step, size, count) == []
  {
    if count > 0 {
      NothingToCover(step, size, count - 1);
    }
  }

  /** The last page starts within the rows, so its offset can be asked for. */
  lemma LastOffsetFits(total: u64, limit: u64)
    requires total < TWO_63
    ensures var n := Paginate(total, limit, 0).totalPage;
            n > 0 ==> (n - 1) * limit < TWO_63
  {
    if limit > 0 && total + limit - 1 < TWO_64 {
      PageCount(total, limit, 0);
    } else if limit > 0 {
      assert Wrap(total + limit - 1) == total + limit - 1 - TWO_64;
      SmallQuotient(total + limit - 1 - TWO_64, limit);
    }
  }

  /** Asking for one page after another up to the reported count gives every event asked for exactly
      once, newest first, just when the limit lies in the clamp range, or a single page holds
      everything, or there is nothing. */
  lemma PagesCoverTheEvents(db: EventDb, q: Criteria, limit: u64)
    requires |db.events| < TWO_63
    ensures |WantedEvents(db, q)| < TWO_63
    ensures var all := Sorted(db, WantedEvents(db, q));
            var n := Paginate(|WantedEvents(db, q)|, limit, 0).totalPage;
            && (n > 0 ==> (n - 1) * limit < TWO_63)
            && (Collected(db, q, limit, n) == all <==> CoversAll(|WantedEvents(db, q)|, limit))
  {
    var all := Sorted(db, WantedEvents(db, q));
    CountedWithin(db, q);
    SortedIsListing(db, WantedEvents(db, q));
    LastOffsetFits(|all|, limit);
    CollectedPages(db, q, limit, Paginate(|all|, limit, 0).totalPage, all);
    CoverageOfPages(all, limit);
  }

  // ----- what the list shows -----

  /** What the criteria ask of an event, by the columns of its row and of its code. */
  predicate AskedFor(db: EventDb, q: Criteria, id: nat) {
    && id in db.events && db.events[id].tenant in db.tenants
    && (q.tenant == 0 || db.events[id].tenant == q.tenant)
    && (q.from == 0 || q.from <= db.events[id].createdAt)
    && (q.to == 0 || db.events[id].createdAt <= q.to)
    && ((q.solution == "" && q.level == "" && q.class1 == "" && q.class2 == "" && q.class3 == "")
        || (&& db.events[id].code in db.codes
            && (q.solution == "" || db.codes[db.events[id].code].solution == q.solution)
            && (q.level == "" || db.codes[db.events[id].code].level == q.level)
            && (q.class1 == "" || db.codes[db.events[id].code].class1 == q.class1)
            && (q.class2 == "" || db.codes[db.events[id].code].class2 == q.class2)
            && (q.class3 == "" || db.codes[db.events[id].code].class3 == q.class3)))
  }

  /** Later creation first, of the same time the greater id first. */
  ghost predicate LatestFirst(db: EventDb, rows: seq<nat>)
    requires forall id | id in rows :: id in db.events
  {
    forall i, j | 0 <= i < j < |rows| ::
      && db.events[rows[i]].createdAt >= db.events[rows[j]].createdAt
      && (db.events[rows[i]].createdAt == db.events[rows[j]].createdAt ==> rows[i] > rows[j])
  }

  /** The whole list holds exactly the events asked for, each once, latest first. */
  lemma ListedIffAskedFor(db: EventDb, q: Criteria)
    ensures var all := Sorted(db, WantedEvents(db, q));
            && (forall id :: id in all <==> AskedFor(db, q, id))
            && Distinct(all) && LatestFirst(db, all)
  {
    SortedIsListing(db, WantedEvents(db, q));
  }

  lemma SliceOfSorted(rows: seq<nat>, offset: nat, limit: nat)
    ensures var page := Slice(rows, offset, limit);
            forall i | 0 <= i < |page| :: offset + i < |rows| && page[i] == rows[offset + i]
  {
  }

  /** Any page of the list. */
  lemma PageIsListed(db: EventDb, q: Criteria, offset: nat, limit: nat)
    ensures var page := Slice(Sorted(db, WantedEvents(db, q)), offset, limit);
            && (forall id | id in page :: AskedFor(db, q, id))
            && Distinct(page) && LatestFirst(db, page)
  {
    var all := Sorted(db, WantedEvents(db, q));
    ListedIffAskedFor(db, q);
    SliceOfSorted(all, offset, limit);
    var page := Slice(all, offset, limit);
    forall id | id in page
      ensures AskedFor(db, q, id)
    {
      assert id in all;
    }
  }

  /** Every answer lists events asked for, latest first, and counts all of them; there is no content exactly when
      nothing is asked for. */
  lemma AnswerIsLatestFirst(db: EventDb, q: Criteria)
    requires |db.events| < TWO_63 && q.offset < TWO_63
    ensures var r := Reply(db, q);
            && r.Success?
            && (r.value.NoContent? <==> forall id | id in db.events :: !AskedFor(db, q, id))
            && (r.value.Events? ==>
                  && (forall id | id in r.value.ids :: AskedFor(db, q, id))
                  && Distinct(r.value.ids) && LatestFirst(db, r.value.ids)
                  && r.value.pagination.totalItems == |Sorted(db, WantedEvents(db, q))|)
  {
    var all := Sorted(db, WantedEvents(db, q));
    PageFound(db, q, q.limit, q.offset);
    assert q.(limit := Clamp(q.limit), offset := q.offset) == q.(limit := Clamp(q.limit));
    ListedIffAskedFor(db, q);
    PageIsListed(db, q, q.offset, Clamp(q.limit));
    if all != [] {
      assert all[0] in all;
    }
  }

  /** Collecting the reported pages of a limit within the range gives every event asked for exactly once, latest first. */
  lemma EverythingCollectedOnce(db: EventDb, q: Criteria, limit: u64)
    requires |db.events| < TWO_63 && 10 <= limit <= 100
    ensures |WantedEvents(db, q)| < TWO_63
    ensures var n := Paginate(|WantedEvents(db, q)|, limit, 0).totalPage;
            && (n > 0 ==> (n - 1) * limit < TWO_63)
            && var rows := Collected(db, q, limit, n);
               && (forall id :: id in rows <==> AskedFor(db, q, id))
               && Distinct(rows) && LatestFirst(db, rows)
  {
    PagesCoverTheEvents(db, q, limit);
    ListedIffAskedFor(db, q);
  }
}
