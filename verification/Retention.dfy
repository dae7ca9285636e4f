/** How long events are kept: a cutoff at midnight, a period for each tenant, and a cleaner that runs
    at start and at every midnight. Times are in seconds, days and midnights in UTC. */
module Retention {
  import opened Results
  import opened Decimal

  const MONTH_IN_SECONDS := 30 * 24 * 3600
  const DAY_IN_SECONDS := 24 * 3600
  const DEFAULT_PERIOD: i64 := 12
  const GREATEST_PERIOD := 120

  /** Clocks up to here leave room for any accepted period. */
  const FAR_FUTURE: int := 0x4000_0000_0000_0000

  datatype Event = Event(tenant: nat, createdAt: int)

  /** `periods` holds the configured periods as text; a tenant may have none. */
  datatype Setting = Setting(tenants: set<nat>, periods: map<nat, string>)

  /** `inserted` remembers every event ever stored. */
  datatype State = State(events: map<nat, Event>, inserted: map<nat, Event>, now: int)

  /** Months; text that is no number counts as no setting. */
  function Period(c: Setting, tenant: nat): i64 {
    if tenant in c.periods && ParseInt64(c.periods[tenant]).Some? then ParseInt64(c.periods[tenant]).value
    else DEFAULT_PERIOD
  }

  function Midnight(now: int): int {
    now - now % DAY_IN_SECONDS
  }

  function NextMidnight(now: int): int {
    Midnight(now) + DAY_IN_SECONDS
  }

  /** Signed 64-bit arithmetic wraps around. */
  function Wrap(x: int): i64 {
    var r := x % TWO_64;
    if r < TWO_63 then r else r - TWO_64
  }

  function Cutoff(now: int, period: i64): int {
    Wrap(Midnight(now) - Wrap(period * MONTH_IN_SECONDS))
  }

  predicate Expired(c: Setting, now: int, e: Event) {
    && e.tenant in c.tenants
    && Period(c, e.tenant) != 0
    && e.createdAt < Cutoff(now, Period(c, e.tenant))
  }

  function Kept(c: Setting, now: int, events: map<nat, Event>): map<nat, Event> {
    map id | id in events && !Expired(c, now, events[id]) :: events[id]
  }

  // ----- the cleaner -----

  class Cleaner {
    const setting: Setting
    var events: map<nat, Event>

    constructor (setting: Setting, events: map<nat, Event>)
      ensures this.setting == setting && this.events == events
    {
      this.setting, this.events := setting, events;
    }

    /** Removes the tenant's events from before the cutoff; a period of zero keeps everything. */
    method CleanExpiredTenantEvent(now: int, tenant: nat)
      requires tenant in setting.tenants
      modifies this`events
      ensures events == map id | id in old(events)
                && !(old(events)[id].tenant == tenant && Expired(setting, now, old(events)[id])) :: old(events)[id]
    {
      var period := DEFAULT_PERIOD;
      if tenant in setting.periods {
        var p := ParseInt64(setting.periods[tenant]);
        if p.Some? {
          period := p.value;
        }
      }
      if period == 0 {
        return;
      }
      var cutoff := Wrap(Midnight(now) - Wrap(period * MONTH_IN_SECONDS));
      events := map id | id in events && !(events[id].createdAt < cutoff && events[id].tenant == tenant) :: events[id];
    }

    /** One tenant after another. */
    method CleanExpiredEvent(now: int)
      modifies this`events
      ensures events == Kept(setting, now, old(events))
    {
      var rest := setting.tenants;
      while rest != {}
        invariant rest <= setting.tenants
        invariant events == map id | id in old(events)
                    && !(old(events)[id].tenant !in rest && Expired(setting, now, old(events)[id])) :: old(events)[id]
      {
        var tenant :| tenant in rest;
        CleanExpiredTenantEvent(now, tenant);
        rest := rest - {tenant};
      }
    }
  }

  // ----- runs -----

  datatype Step = Insert(id: nat, event: Event) | Tick(seconds: nat) | Clean

  function Next(c: Setting, s: State, step: Step): State {
    match step
    case Insert(id, event) =>
      if id in s.inserted || event.tenant !in c.tenants then s
      else s.(events := s.events[id := event], inserted := s.inserted[id := event])
    case Tick(seconds) => s.(now := s.now + seconds)
    case Clean => s.(events := Kept(c, s.now, s.events))
  }

  function Run(c: Setting, s: State, steps: seq<Step>): State
    decreases |steps|
  {
    if steps == [] then s else Run(c, Next(c, s, steps[0]), steps[1..])
  }

  /** Every period is one that the configuration accepts, 0 to 120 months, and clocks are ordinary. */
  predicate Sane(c: Setting, now: int) {
    && (forall t | t in c.tenants :: 0 <= Period(c, t) <= GREATEST_PERIOD)
    && -FAR_FUTURE <= now < FAR_FUTURE
  }

  /** The cutoff without wrapping. */
  lemma CutoffValue(now: int, period: i64)
    requires 0 <= period <= GREATEST_PERIOD && -FAR_FUTURE <= now < FAR_FUTURE
    ensures Cutoff(now, period) == Midnight(now) - period * MONTH_IN_SECONDS
  {
    Unwrapped(period * MONTH_IN_SECONDS);
    Unwrapped(Midnight(now) - period * MONTH_IN_SECONDS);
  }

  lemma Unwrapped(x: int)
    requires 0 - TWO_63 as int <= x < TWO_63
    ensures Wrap(x) == x
  {
    if x < 0 {
      assert x + TWO_64 == x % TWO_64;
    }
  }

  lemma MidnightGrows(a: int, b: int)
    requires a <= b
    ensures Midnight(a) <= Midnight(b)
  {
  }

  /** What expired stays expired. */
  lemma ExpiredForGood(c: Setting, now: int, later: int, e: Event)
    requires Sane(c, now) && Sane(c, later) && now <= later && Expired(c, now, e)
    ensures Expired(c, later, e)
  {
    CutoffValue(now, Period(c, e.tenant));
    CutoffValue(later, Period(c, e.tenant));
    MidnightGrows(now, later);
  }

  /** Only expired events are missing, and nothing but what was inserted is there. */
  ghost predicate Sound(c: Setting, s: State) {
    && (forall id | id in s.events :: id in s.inserted && s.events[id] == s.inserted[id])
    && (forall id | id in s.inserted && id !in s.events :: Expired(c, s.now, s.inserted[id]))
  }

  lemma NextKeepsSound(c: Setting, s: State, step: Step)
    requires Sound(c, s) && Sane(c, s.now) && Sane(c, Next(c, s, step).now)
    ensures Sound(c, Next(c, s, step))
  {
    if step.Tick? {
      forall id | id in s.inserted && id !in s.events
        ensures Expired(c, s.now + step.seconds, s.inserted[id])
      {
        ExpiredForGood(c, s.now, s.now + step.seconds, s.inserted[id]);
      }
    }
  }

  lemma {:induction false} ClockNeverGoesBack(c: Setting, s: State, steps: seq<Step>)
    ensures s.now <= Run(c, s, steps).now
    decreases |steps|
  {
    if steps != [] {
      ClockNeverGoesBack(c, Next(c, s, steps[0]), steps[1..]);
    }
  }

  lemma {:induction false} RunKeepsSound(c: Setting, s: State, steps: seq<Step>)
    requires Sound(c, s) && Sane(c, s.now) && Sane(c, Run(c, s, steps).now)
    ensures Sound(c, Run(c, s, steps))
    decreases |steps|
  {
    if steps != [] {
      var next := Next(c, s, steps[0]);
      ClockNeverGoesBack(c, next, steps[1..]);
      ClockNeverGoesBack(c, s, [steps[0]]);
      NextKeepsSound(c, s, steps[0]);
      RunKeepsSound(c, next, steps[1..]);
    }
  }

  /** Whatever was inserted and cleaned before, right after a cleaning exactly the events ever inserted
      that are not older than its cutoff are left. */
  lemma CleaningIsExact(c: Setting, s: State, steps: seq<Step>)
    requires Sound(c, s) && Sane(c, s.now) && Sane(c, Run(c, s, steps).now)
    ensures var before := Run(c, s, steps);
            Next(c, before, Clean).events == Kept(c, before.now, before.inserted)
  {
    RunKeepsSound(c, s, steps);
  }

  /** At any time, what is missing is older than its tenant's period, which is then not zero. */
  lemma NothingYoungIsRemoved(c: Setting, s: State, steps: seq<Step>, id: nat)
    requires Sound(c, s) && Sane(c, s.now) && Sane(c, Run(c, s, steps).now)
    requires id in Run(c, s, steps).inserted && id !in Run(c, s, steps).events
    ensures var end := Run(c, s, steps);
            var period := Period(c, end.inserted[id].tenant);
            period > 0 && end.now - end.inserted[id].createdAt > period * MONTH_IN_SECONDS
  {
    RunKeepsSound(c, s, steps);
    var end := Run(c, s, steps);
    CutoffValue(end.now, Period(c, end.inserted[id].tenant));
  }

  /** Until the next midnight after a cleaning, no event that went through it is older than its
      tenant's period and a day. */
  lemma NothingOldStays(c: Setting, s: State, id: nat, later: int)
    requires Sane(c, s.now) && s.now <= later < NextMidnight(s.now)
    requires id in Next(c, s, Clean).events && s.events[id].tenant in c.tenants && Period(c, s.events[id].tenant) > 0
    ensures later - s.events[id].createdAt < Period(c, s.events[id].tenant) * MONTH_IN_SECONDS + DAY_IN_SECONDS
  {
    CutoffValue(s.now, Period(c, s.events[id].tenant));
  }

  /** The ticker waits for the first midnight after now, at most a day. */
  lemma NextMidnightIsNext(now: int)
    ensures 0 < NextMidnight(now) - now <= DAY_IN_SECONDS && NextMidnight(now) % DAY_IN_SECONDS == 0
    ensures forall t | now < t < NextMidnight(now) :: t % DAY_IN_SECONDS != 0
  {
    forall t | now < t < NextMidnight(now)
      ensures t % DAY_IN_SECONDS != 0
    {
      var m := Midnight(now);
      assert 0 < t - m < DAY_IN_SECONDS;
    }
  }

  function EventsOf(s: State, tenant: nat): map<nat, Event> {
    map id | id in s.events && s.events[id].tenant == tenant :: s.events[id]
  }

  /** The events of a tenant depend on its own period only. */
  lemma {:induction false} OwnPeriodOnly(c: Setting, d: Setting, s: State, t: State, steps: seq<Step>, tenant: nat)
    requires c.tenants == d.tenants && Period(c, tenant) == Period(d, tenant)
    requires s.now == t.now && s.inserted == t.inserted && EventsOf(s, tenant) == EventsOf(t, tenant)
    ensures EventsOf(Run(c, s, steps), tenant) == EventsOf(Run(d, t, steps), tenant)
    decreases |steps|
  {
    if steps != [] {
      OwnPeriodStep(c, d, s, t, steps[0], tenant);
      OwnPeriodOnly(c, d, Next(c, s, steps[0]), Next(d, t, steps[0]), steps[1..], tenant);
    }
  }

  lemma OwnPeriodStep(c: Setting, d: Setting, s: State, t: State, step: Step, tenant: nat)
    requires c.tenants == d.tenants && Period(c, tenant) == Period(d, tenant)
    requires s.now == t.now && s.inserted == t.inserted && EventsOf(s, tenant) == EventsOf(t, tenant)
    ensures EventsOf(Next(c, s, step), tenant) == EventsOf(Next(d, t, step), tenant)
    ensures Next(c, s, step).now == Next(d, t, step).now && Next(c, s, step).inserted == Next(d, t, step).inserted
  {
    forall id
      ensures id in EventsOf(Next(c, s, step), tenant) <==> id in EventsOf(Next(d, t, step), tenant)
    {
      assert id in EventsOf(s, tenant) <==> id in EventsOf(t, tenant);
    }
    forall id | id in EventsOf(Next(c, s, step), tenant)
      ensures EventsOf(Next(c, s, step), tenant)[id] == EventsOf(Next(d, t, step), tenant)[id]
    {
      assert id in EventsOf(s, tenant) ==> EventsOf(s, tenant)[id] == EventsOf(t, tenant)[id];
    }
  }

  // ----- in numbers -----

  /** A period written in decimal is the period used; without a setting, or with text that is no number, it is
      twelve months. */
  lemma PeriodRead(c: Setting, tenant: nat, months: i64)
    ensures tenant in c.periods && c.periods[tenant] == Itoa(months) ==> Period(c, tenant) == months
    ensures tenant !in c.periods || ParseInt64(c.periods[tenant]).None? ==> Period(c, tenant) == 12
  {
    PrintedIntParses(months);
  }

  /** The last UTC midnight. */
  lemma MidnightIsLast(now: int)
    ensures Midnight(now) % 86400 == 0 && Midnight(now) <= now < Midnight(now) + 86400
  {
  }

  /** Right after a cleaning an event ever inserted is there exactly if its tenant is unknown or keeps events for ever,
      or the event is not from before the last midnight less so many times thirty days. */
  lemma KeptIff(c: Setting, s: State, steps: seq<Step>, id: nat, midnight: int)
    requires Sound(c, s) && Sane(c, s.now) && Sane(c, Run(c, s, steps).now)
    requires midnight % 86400 == 0 && midnight <= Run(c, s, steps).now < midnight + 86400
    requires id in Run(c, s, steps).inserted
    ensures var before := Run(c, s, steps);
            var e := before.inserted[id];
            id in Next(c, before, Clean).events
            <==> e.tenant !in c.tenants || Period(c, e.tenant) == 0
                 || e.createdAt >= midnight - Period(c, e.tenant) * 2592000
  {
    var before := Run(c, s, steps);
    CleaningIsExact(c, s, steps);
    MidnightIsLast(before.now);
    OneMidnight(before.now, midnight);
    if before.inserted[id].tenant in c.tenants {
      CutoffValue(before.now, Period(c, before.inserted[id].tenant));
    }
  }

  lemma OneMidnight(now: int, midnight: int)
    requires midnight % 86400 == 0 && midnight <= now < midnight + 86400
    ensures Midnight(now) == midnight
  {
  }

  /** An event of a known tenant with a new id is stored, and stays until a cleaning finds it expired. */
  lemma InsertedIsThere(c: Setting, s: State, id: nat, event: Event)
    requires id !in s.inserted && event.tenant in c.tenants
    ensures var t := Next(c, s, Insert(id, event));
            && t == s.(events := s.events[id := event], inserted := s.inserted[id := event])
            && (!Expired(c, t.now, event) ==> id in Next(c, t, Clean).events)
  {
  }

  /** The time that passes in a run. */
  function Elapsed(steps: seq<Step>): nat {
    if steps == [] then 0 else (if steps[0].Tick? then steps[0].seconds else 0) + Elapsed(steps[1..])
  }

  lemma {:induction false} ClockShowsElapsed(c: Setting, s: State, steps: seq<Step>)
    ensures Run(c, s, steps).now == s.now + Elapsed(steps)
    decreases |steps|
  {
    if steps != [] {
      ClockShowsElapsed(c, Next(c, s, steps[0]), steps[1..]);
    }
  }
}
