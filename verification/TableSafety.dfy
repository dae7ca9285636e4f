/** What the tables keep in every run of the whole service. */
module TableSafety {
  import opened Results
  import opened IdentityModel
  import opened Sessions
  import opened DirectoryInvariants
  import TenantConfig
  import Directory

  lemma RowSaved(site: Site, db: Db, id: nat, row: User)
    requires Consistent(site, db) && id in db.users
    requires row.account == db.users[id].account && row.tenant == db.users[id].tenant
    requires row.profile == db.users[id].profile && FailureRecorded(row)
    ensures Consistent(site, db.(users := db.users[id := row])) && Evolves(db, db.(users := db.users[id := row]))
  {
    var after := db.(users := db.users[id := row]);
    SavedRelated(site, db, after, id, false, [], []);
    SavedUnique(site, db, after, id, false, [], []);
    SavedShaped(site, db, after, id, false, [], []);
  }

  lemma FoundAccount(db: Db, account: string)
    requires FindByAccount(db, account).Some?
    ensures FindByAccount(db, account).value in db.users
    ensures db.users[FindByAccount(db, account).value].account == account
  {
  }

  /** With unique accounts an account finds its own user. */
  lemma AccountFinds(db: Db, id: nat)
    requires AccountsUnique(db) && id in db.users
    ensures FindByAccount(db, db.users[id].account) == Some(id)
  {
    if FindByAccount(db, db.users[id].account).None? {
      AccountFree(db, db.users[id].account);
    } else {
      FoundAccount(db, db.users[id].account);
    }
  }

  lemma RecordFailureKeeps(site: Site, db: Db, account: string, now: int)
    requires Consistent(site, db)
    ensures Consistent(site, RecordFailure(site, db, account, now)) && Evolves(db, RecordFailure(site, db, account, now))
  {
    EvolvesReflexive(db);
    if FindByAccount(db, account).Some? {
      var id := FindByAccount(db, account).value;
      FoundAccount(db, account);
      var after := RecordFailure(site, db, account, now);
      RowSaved(site, db, id, after.users[id]);
    }
  }

  lemma LoginKeepsConsistent(site: Site, s: State, req: LoginRequest, ip: Option<string>, magic: nat, signature: nat)
    requires Consistent(site, s.db)
    ensures var after := Login(site, s, req, ip, magic, signature).0.db;
            Consistent(site, after) && Evolves(s.db, after)
  {
    var (after, reply) := Login(site, s, req, ip, magic, signature);
    EvolvesReflexive(s.db);
    if reply.Success? {
      var id := FindByAccount(s.db, req.account).value;
      FoundAccount(s.db, req.account);
      RowSaved(site, s.db, id, LoggedInRow(s.db, s.db.users[id], ip.value, s.now));
    } else {
      RecordFailureKeeps(site, s.db, req.account, s.now);
    }
  }

  lemma ConfigsAreApart(site: Site, db: Db, configs: TenantConfig.Table)
    requires Consistent(site, db)
    ensures Consistent(site, db.(configs := configs)) && Evolves(db, db.(configs := configs))
  {
  }

  lemma SetConfigLeavesTheRest(site: Site, s: State, step: Step)
    requires step.StepSetConfig?
    ensures Next(site, s, step).db == s.db.(configs := Next(site, s, step).db.configs)
  {
  }

  lemma SessionStepsLeaveTables(site: Site, s: State, step: Step)
    requires !step.StepLogin? && !step.StepSetConfig? && !step.StepDirectory?
    ensures Next(site, s, step).db == s.db
  {
  }

  lemma NextKeepsConsistent(site: Site, s: State, step: Step)
    requires Consistent(site, s.db)
    ensures Consistent(site, Next(site, s, step).db) && Evolves(s.db, Next(site, s, step).db)
  {
    EvolvesReflexive(s.db);
    match step
    case StepLogin(req, ip, magic, signature) => LoginKeepsConsistent(site, s, req, ip, magic, signature);
    case StepDirectory(op) => ApplyKeeps(site, s.db, op, s.now);
    case StepSetConfig(_, _) =>
      SetConfigLeavesTheRest(site, s, step);
      ConfigsAreApart(site, s.db, Next(site, s, step).db.configs);
    case _ => SessionStepsLeaveTables(site, s, step);
  }

  /** In every run of the whole service, however logins, sessions, settings and directory requests
      mix: memberships and role rows join existing rows of one tenant, accounts, emails and live group
      names are unique, the built-in account keeps the administrator role to itself, and accounts,
      tenants and deletions are final. */
  lemma {:induction false} RunKeepsTables(site: Site, s: State, steps: seq<Step>)
    requires Consistent(site, s.db)
    ensures Consistent(site, Run(site, s, steps).db) && Evolves(s.db, Run(site, s, steps).db)
    decreases |steps|
  {
    if steps == [] {
      EvolvesReflexive(s.db);
    } else {
      var next := Next(site, s, steps[0]);
      NextKeepsConsistent(site, s, steps[0]);
      RunKeepsTables(site, next, steps[1..]);
      EvolvesTransitive(s.db, next.db, Run(site, s, steps).db);
    }
  }

  /** A positive failure count always has its failure time: no login reads a time that is not there. */
  lemma NeverNil(site: Site, s: State, req: LoginRequest, ip: Option<string>, magic: nat, signature: nat)
    requires Consistent(site, s.db)
    ensures Login(site, s, req, ip, magic, signature).1 != Failure(NilDereference)
  {
    if FindByAccount(s.db, req.account).Some? {
      FoundAccount(s.db, req.account);
      assert FailureRecorded(s.db.users[FindByAccount(s.db, req.account).value]);
    }
  }
}
