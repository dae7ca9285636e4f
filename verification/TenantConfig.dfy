/** The identity settings of a tenant: validation, writing as text key by key, and reading back. */
module TenantConfig {
  import opened Results
  import opened Decimal

  datatype Key =
    | GlobalTimeZone
    | GlobalLanguageSet
    | UserLoginRestrictionEnable
    | UserLoginRestrictionTryCount
    | UserLoginRestrictionTime
    | UserReuseOldPassword
    | UserPasswordChangeCycle
    | UserSessionTimeout
    | EventStorePeriod

  type Config = map<Key, string>
  type Table = map<nat, Config>

  /** A settings request or response; a field that is not sent is None. */
  datatype Settings = Settings(
    timezone: Option<string>,
    languageSet: Option<string>,
    restrictionEnable: Option<bool>,
    tryCount: Option<u64>,
    restrictionTime: Option<i64>,
    reuseOldPassword: Option<bool>,
    passwordChangeCycle: Option<u64>,
    sessionTimeout: Option<u64>)

  const LANGUAGES := ["eng", "kor"]
  const DEFAULT_SESSION_TIMEOUT: int := 30

  predicate MinMax(min: nat, max: nat, i: u64) {
    !(i < min || i > max)
  }

  /** `zones` are the time zone names the host can load. */
  function Validate(zones: set<string>, req: Option<Settings>): Outcome<Error> {
    match req
    case None => Fail(RequiredParameter("identity_config"))
    case Some(s) => ValidateSettings(zones, s)
  }

  function ValidateSettings(zones: set<string>, s: Settings): Outcome<Error> {
    var timezone := s.timezone;
    :- Need(timezone.Some?, RequiredParameter("global_timezone"));
    :- Need(s.languageSet.Some?, RequiredParameter("global_language_set"));
    :- Need(s.reuseOldPassword.Some?, RequiredParameter("user_reuse_old_password"));
    :- Need(s.passwordChangeCycle.Some?, RequiredParameter("user_password_change_cycle"));
    :- Need(s.sessionTimeout.Some?, RequiredParameter("user_session_timeout"));
    :- Need(s.restrictionEnable.Some?, RequiredParameter("user_login_restriction_enable"));
    :- Need(timezone.value in zones, UnavailableParameterValue("global_timezone"));
    :- Need(s.languageSet.value in LANGUAGES, UnavailableParameterValue("global_language_set"));
    :- Need(MinMax(0, 180, s.passwordChangeCycle.value), OutOfRange("user_password_change_cycle"));
    :- Need(MinMax(1, 1440, s.sessionTimeout.value), OutOfRange("user_session_timeout"));
    if s.restrictionEnable.value then
      :- Need(s.tryCount.Some?, RequiredParameter("user_login_restriction_try_count"));
      :- Need(s.restrictionTime.Some?, RequiredParameter("user_login_restriction_time"));
      :- Need(MinMax(5, 30, s.tryCount.value), OutOfRange("user_login_restriction_try_count"));
      :- Need(MinMax(10, 7200, ToUint64(s.restrictionTime.value)), OutOfRange("user_login_restriction_time"));
      Pass
    else
      Pass
  }

  predicate Complete(s: Settings) {
    && s.timezone.Some? && s.languageSet.Some? && s.reuseOldPassword.Some?
    && s.passwordChangeCycle.Some? && s.sessionTimeout.Some? && s.restrictionEnable.Some?
    && (s.restrictionEnable.value ==> s.tryCount.Some? && s.restrictionTime.Some?)
  }

  predicate InRange(s: Settings)
    requires Complete(s)
  {
    && s.passwordChangeCycle.value <= 180
    && 1 <= s.sessionTimeout.value <= 1440
    && (s.restrictionEnable.value ==> 5 <= s.tryCount.value <= 30 && 10 <= s.restrictionTime.value <= 7200)
  }

  lemma AcceptedInRange(zones: set<string>, s: Settings)
    requires Validate(zones, Some(s)).Pass?
    ensures Complete(s) && InRange(s)
  {
  }

  /** A configuration is accepted exactly if everything is sent and known or in range; the two numbers of the
      restriction are looked at only while it is on. */
  lemma AcceptedIff(zones: set<string>, s: Settings)
    ensures Validate(zones, Some(s)).Pass?
            <==> && s.timezone.Some? && s.timezone.value in zones
                 && (s.languageSet == Some("eng") || s.languageSet == Some("kor"))
                 && s.reuseOldPassword.Some?
                 && s.passwordChangeCycle.Some? && s.passwordChangeCycle.value <= 180
                 && s.sessionTimeout.Some? && 1 <= s.sessionTimeout.value <= 1440
                 && (s.restrictionEnable == Some(false)
                     || (s.restrictionEnable == Some(true)
                         && s.tryCount.Some? && 5 <= s.tryCount.value <= 30
                         && s.restrictionTime.Some? && 10 <= s.restrictionTime.value <= 7200))
  {
  }

  /** The rows a valid request writes. */
  function Written(s: Settings): Config
    requires Complete(s)
  {
    var base := map[
      GlobalLanguageSet := s.languageSet.value,
      GlobalTimeZone := s.timezone.value,
      UserPasswordChangeCycle := Itoa(ToInt64(s.passwordChangeCycle.value)),
      UserReuseOldPassword := FormatBool(s.reuseOldPassword.value),
      UserSessionTimeout := Itoa(ToInt64(s.sessionTimeout.value)),
      UserLoginRestrictionEnable := FormatBool(s.restrictionEnable.value)];
    if s.restrictionEnable.value then
      base[UserLoginRestrictionTryCount := Itoa(ToInt64(s.tryCount.value))]
          [UserLoginRestrictionTime := Itoa(s.restrictionTime.value)]
    else
      base
  }

  function ConfigOf(table: Table, tenant: nat): Config {
    if tenant in table then table[tenant] else map[]
  }

  /** Rows are saved over the old ones; a key that is not written keeps its old value. */
  function Set(zones: set<string>, table: Table, tenant: nat, req: Option<Settings>): Result<Table, Error> {
    match Validate(zones, req)
    case Fail(e) => Failure(e)
    case Pass => Success(table[tenant := ConfigOf(table, tenant) + Written(req.value)])
  }

  function Text(cfg: Config, key: Key): Result<string, Error> {
    if key in cfg then Success(cfg[key]) else Failure(NotFoundTenantConfig)
  }

  function Unsigned(cfg: Config, key: Key): Result<u64, Error> {
    var text :- Text(cfg, key);
    match ParseUint64(text)
    case Some(v) => Success(v)
    case None => Failure(InvalidTenantConfig)
  }

  function Signed(cfg: Config, key: Key): Result<i64, Error> {
    var text :- Text(cfg, key);
    match ParseInt64(text)
    case Some(v) => Success(v)
    case None => Failure(InvalidTenantConfig)
  }

  function Boolean(cfg: Config, key: Key): Result<bool, Error> {
    var text :- Text(cfg, key);
    match ParseBool(text)
    case Some(v) => Success(v)
    case None => Failure(InvalidTenantConfig)
  }

  function Get(cfg: Config): Result<Settings, Error> {
    var language :- Text(cfg, GlobalLanguageSet);
    var timezone :- Text(cfg, GlobalTimeZone);
    var cycle :- Unsigned(cfg, UserPasswordChangeCycle);
    var reuse :- Boolean(cfg, UserReuseOldPassword);
    var timeout :- Unsigned(cfg, UserSessionTimeout);
    var enable :- Boolean(cfg, UserLoginRestrictionEnable);
    if enable then
      var tryCount :- Unsigned(cfg, UserLoginRestrictionTryCount);
      var time :- Signed(cfg, UserLoginRestrictionTime);
      Success(Settings(Some(timezone), Some(language), Some(enable), Some(tryCount), Some(time),
                       Some(reuse), Some(cycle), Some(timeout)))
    else
      Success(Settings(Some(timezone), Some(language), Some(enable), None, None,
                       Some(reuse), Some(cycle), Some(timeout)))
  }

  /** What the login code reads: minutes a session may stay idle. */
  function SessionTimeout(cfg: Config): int {
    if UserSessionTimeout in cfg then
      match ParseInt64(cfg[UserSessionTimeout])
      case Some(v) => v
      case None => DEFAULT_SESSION_TIMEOUT
    else
      DEFAULT_SESSION_TIMEOUT
  }

  type pos = n: nat | n > 0 witness 1
  datatype Restriction = Off | Limit(tries: pos, seconds: int)

  /** What the login code reads before it looks at a failure count. */
  function LoginRestriction(cfg: Config): Result<Restriction, Error> {
    if UserLoginRestrictionEnable !in cfg then Failure(UnusableDatabase)
    else match ParseBool(cfg[UserLoginRestrictionEnable])
      case None => Failure(Unknown)
      case Some(false) => Success(Off)
      case Some(true) =>
        if UserLoginRestrictionTryCount !in cfg then Failure(UnusableDatabase)
        else match ParseUint64(cfg[UserLoginRestrictionTryCount])
          case None => Failure(Unknown)
          case Some(tries) =>
            if UserLoginRestrictionTime !in cfg then Failure(UnusableDatabase)
            else match ParseInt64(cfg[UserLoginRestrictionTime])
              case None => Failure(Unknown)
              case Some(seconds) => Success(if tries == 0 then Off else Limit(tries, seconds))
  }

  /** When logins are restricted, and to what, by the texts stored. */
  lemma RestrictionIff(cfg: Config, tries: pos, seconds: int)
    ensures LoginRestriction(cfg) == Success(Limit(tries, seconds))
            <==> && UserLoginRestrictionEnable in cfg && ParseBool(cfg[UserLoginRestrictionEnable]) == Some(true)
                 && UserLoginRestrictionTryCount in cfg && ParseUint64(cfg[UserLoginRestrictionTryCount]) == Some(tries)
                 && UserLoginRestrictionTime in cfg && ParseInt64(cfg[UserLoginRestrictionTime]) == Some(seconds)
    ensures UserLoginRestrictionEnable in cfg && ParseBool(cfg[UserLoginRestrictionEnable]) == Some(false) ==>
              LoginRestriction(cfg) == Success(Off)
    ensures UserLoginRestrictionEnable !in cfg ==> LoginRestriction(cfg).Failure?
  {
  }

  /** The settings as a reader sees them: the two restriction numbers only count while restriction is on. */
  function Effective(s: Settings): Settings {
    if s.restrictionEnable == Some(true) then s else s.(tryCount := None, restrictionTime := None)
  }

  lemma UnsignedReadsBack(cfg: Config, key: Key, v: u64)
    requires key in cfg && cfg[key] == Itoa(ToInt64(v)) && v < TWO_63
    ensures Unsigned(cfg, key) == Success(v)
    ensures ParseInt64(cfg[key]) == Some(v) && ParseUint64(cfg[key]) == Some(v)
  {
    PrintedIntParses(ToInt64(v));
  }

  lemma SignedReadsBack(cfg: Config, key: Key, v: i64)
    requires key in cfg && cfg[key] == Itoa(v)
    ensures Signed(cfg, key) == Success(v)
    ensures ParseInt64(cfg[key]) == Some(v)
  {
    PrintedIntParses(v);
  }

  lemma BooleanReadsBack(cfg: Config, key: Key, v: bool)
    requires key in cfg && cfg[key] == FormatBool(v)
    ensures Boolean(cfg, key) == Success(v)
    ensures ParseBool(cfg[key]) == Some(v)
  {
    PrintedBoolParses(v);
  }

  /** The typed values of the rows an accepted request leaves behind, over any older rows. */
  lemma RowsReadBack(before: Config, s: Settings)
    requires Complete(s) && InRange(s)
    ensures var cfg := before + Written(s);
            && Text(cfg, GlobalLanguageSet) == Success(s.languageSet.value)
            && Text(cfg, GlobalTimeZone) == Success(s.timezone.value)
            && Unsigned(cfg, UserPasswordChangeCycle) == Success(s.passwordChangeCycle.value)
            && Boolean(cfg, UserReuseOldPassword) == Success(s.reuseOldPassword.value)
            && Unsigned(cfg, UserSessionTimeout) == Success(s.sessionTimeout.value)
            && Boolean(cfg, UserLoginRestrictionEnable) == Success(s.restrictionEnable.value)
            && SessionTimeout(cfg) == s.sessionTimeout.value
  {
    var cfg := before + Written(s);
    UnsignedReadsBack(cfg, UserPasswordChangeCycle, s.passwordChangeCycle.value);
    BooleanReadsBack(cfg, UserReuseOldPassword, s.reuseOldPassword.value);
    UnsignedReadsBack(cfg, UserSessionTimeout, s.sessionTimeout.value);
    BooleanReadsBack(cfg, UserLoginRestrictionEnable, s.restrictionEnable.value);
  }

  lemma RestrictionReadsBack(before: Config, s: Settings)
    requires Complete(s) && InRange(s)
    ensures var cfg := before + Written(s);
            && LoginRestriction(cfg) == Success(
                 if s.restrictionEnable.value then Limit(s.tryCount.value, s.restrictionTime.value) else Off)
            && (s.restrictionEnable.value ==>
                  && Unsigned(cfg, UserLoginRestrictionTryCount) == Success(s.tryCount.value)
                  && Signed(cfg, UserLoginRestrictionTime) == Success(s.restrictionTime.value))
  {
    var cfg := before + Written(s);
    BooleanReadsBack(cfg, UserLoginRestrictionEnable, s.restrictionEnable.value);
    if s.restrictionEnable.value {
      UnsignedReadsBack(cfg, UserLoginRestrictionTryCount, s.tryCount.value);
      SignedReadsBack(cfg, UserLoginRestrictionTime, s.restrictionTime.value);
    }
  }

  /** Every accepted configuration is read back as it was sent, whatever rows were there before,
      and no other tenant's rows change. */
  lemma RoundTrip(zones: set<string>, table: Table, tenant: nat, s: Settings)
    requires Set(zones, table, tenant, Some(s)).Success?
    ensures var after := Set(zones, table, tenant, Some(s)).value;
            && Get(ConfigOf(after, tenant)) == Success(Effective(s))
            && (forall t | t != tenant :: ConfigOf(after, t) == ConfigOf(table, t))
  {
    AcceptedInRange(zones, s);
    RowsReadBack(ConfigOf(table, tenant), s);
    RestrictionReadsBack(ConfigOf(table, tenant), s);
  }

  /** A write touches only the rows of the settings, and those of the restriction numbers only while it is on. */
  lemma OtherRowsStay(zones: set<string>, table: Table, tenant: nat, s: Settings, key: Key)
    requires Set(zones, table, tenant, Some(s)).Success?
    requires key == EventStorePeriod
             || (s.restrictionEnable == Some(false)
                 && (key == UserLoginRestrictionTryCount || key == UserLoginRestrictionTime))
    ensures var before, after := ConfigOf(table, tenant), ConfigOf(Set(zones, table, tenant, Some(s)).value, tenant);
            (key in after <==> key in before) && (key in before ==> after[key] == before[key])
  {
    AcceptedInRange(zones, s);
  }

  /** What login and session code read after an accepted write. */
  lemma AcceptedPolicy(zones: set<string>, table: Table, tenant: nat, s: Settings)
    requires Set(zones, table, tenant, Some(s)).Success?
    ensures var cfg := ConfigOf(Set(zones, table, tenant, Some(s)).value, tenant);
            && 1 <= SessionTimeout(cfg) <= 1440
            && s.sessionTimeout == Some(SessionTimeout(cfg))
            && LoginRestriction(cfg) == Success(
                 if s.restrictionEnable.value then Limit(s.tryCount.value, s.restrictionTime.value) else Off)
            && (s.restrictionEnable.value ==> 5 <= s.tryCount.value <= 30 && 10 <= s.restrictionTime.value <= 7200)
  {
    AcceptedInRange(zones, s);
    RowsReadBack(ConfigOf(table, tenant), s);
    RestrictionReadsBack(ConfigOf(table, tenant), s);
  }

  datatype Write = Write(tenant: nat, req: Option<Settings>)

  /** A sequence of requests; a rejected one leaves the table as it was. */
  function Writes(zones: set<string>, table: Table, ws: seq<Write>): Table
    decreases |ws|
  {
    if ws == [] then table
    else
      var next := match Set(zones, table, ws[0].tenant, ws[0].req)
        case Success(t) => t
        case Failure(_) => table;
      Writes(zones, next, ws[1..])
  }

  /** Once a tenant's settings can be read, they can be read after any later requests;
      and one accepted write makes them readable from any rows. */
  lemma {:induction false} ReadableForever(zones: set<string>, table: Table, tenant: nat, ws: seq<Write>)
    requires Get(ConfigOf(table, tenant)).Success?
             || (exists i | 0 <= i < |ws| :: ws[i].tenant == tenant && Validate(zones, ws[i].req).Pass?)
    ensures Get(ConfigOf(Writes(zones, table, ws), tenant)).Success?
    decreases |ws|
  {
    if ws != [] {
      var w := ws[0];
      var r := Set(zones, table, w.tenant, w.req);
      if r.Success? {
        RoundTrip(zones, table, w.tenant, w.req.value);
      }
      var next := if r.Success? then r.value else table;
      if !Get(ConfigOf(next, tenant)).Success? {
        var i :| 0 <= i < |ws| && ws[i].tenant == tenant && Validate(zones, ws[i].req).Pass?;
        assert i > 0 && ws[1..][i - 1] == ws[i];
      }
      ReadableForever(zones, next, tenant, ws[1..]);
    }
  }

  /** The later of two accepted writes wins completely: a reader sees nothing of the earlier one,
      although rows the later one does not write keep their old text. */
  lemma LastWriteWins(zones: set<string>, table: Table, tenant: nat, first: Settings, second: Settings)
    requires Set(zones, table, tenant, Some(first)).Success?
    requires Validate(zones, Some(second)).Pass?
    ensures var after := Writes(zones, table, [Write(tenant, Some(first)), Write(tenant, Some(second))]);
            Get(ConfigOf(after, tenant)) == Success(Effective(second))
  {
    var mid := Set(zones, table, tenant, Some(first)).value;
    var ws := [Write(tenant, Some(first)), Write(tenant, Some(second))];
    assert ws[1..] == [Write(tenant, Some(second))];
    assert ws[1..][1..] == [];
    RoundTrip(zones, mid, tenant, second);
    assert Writes(zones, table, ws) == Writes(zones, mid, ws[1..]);
  }
}
