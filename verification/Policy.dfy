/** Policies, per-device overrides, and what they resolve to at an instant. */
module Policy {
  import opened Prelude
  import opened Schedule
  import Registry
  import Usage

  const ENFORCEMENT_ONLY := "enforcement_only"
  const METADATA := "metadata"
  const GRANULAR := "granular"

  /** Minutes allowed on each weekday, Sunday first. */
  type Budget = b: seq<int> | |b| == 7 witness [0, 0, 0, 0, 0, 0, 0]

  /** A missing list is kept apart from an empty one. */
  datatype Content = Content(
    blockedDomains: Option<seq<string>>, blockedApps: Option<seq<string>>, blockedCategories: Option<seq<string>>)

  datatype Policy = Policy(
    timezone: string, timeBudget: Option<Budget>, schedule: Option<Schedule>,
    content: Option<Content>, monitoring: Option<string>)

  /** A partial policy: a present field replaces the person's. */
  datatype Override = Override(
    timezone: Option<string>, timeBudget: Option<Budget>, schedule: Option<Schedule>,
    content: Option<Content>, monitoring: Option<string>)

  datatype ResolvedPolicy = ResolvedPolicy(
    device: string, at: Time, person: Option<string>,
    screenLocked: bool, lockReason: string,
    blockedDomains: seq<string>, blockedApps: seq<string>, blockedCategories: seq<string>,
    logLevel: string, budgetMinutes: int, budgetUsed: int,
    requiredCaps: seq<Registry.Capability>)

  // ---- Merge ----------------------------------------------------------------------------

  function Prefer<T>(override_: Option<T>, base: Option<T>): Option<T> {
    if override_.Some? then override_ else base
  }

  const EMPTY_POLICY := Policy("", None, None, None, None)

  /** Field by field, the override's where it has one, else the person's. */
  function Merged(p: Option<Policy>, o: Option<Override>): Option<Policy> {
    if p.None? && o.None? then None
    else
      var base := if p.Some? then p.value else EMPTY_POLICY;
      match o
      case None => Some(base)
      case Some(v) => Some(Policy(
        Prefer(v.timezone, Some(base.timezone)).value, Prefer(v.timeBudget, base.timeBudget),
        Prefer(v.schedule, base.schedule), Prefer(v.content, base.content), Prefer(v.monitoring, base.monitoring)))
  }

  method Merge(p: Option<Policy>, o: Option<Override>) returns (r: Option<Policy>)
    ensures r == Merged(p, o)
  {
    if p.None? && o.None? {
      return None;
    }
    var out := EMPTY_POLICY;
    if p.Some? {
      out := p.value;
    }
    if o.None? {
      return Some(out);
    }
    var v := o.value;
    if v.timezone.Some? {
      out := out.(timezone := v.timezone.value);
    }
    if v.timeBudget.Some? {
      out := out.(timeBudget := v.timeBudget);
    }
    if v.schedule.Some? {
      out := out.(schedule := v.schedule);
    }
    if v.content.Some? {
      out := out.(content := v.content);
    }
    if v.monitoring.Some? {
      out := out.(monitoring := v.monitoring);
    }
    return Some(out);
  }

  // ---- RequiredCaps ---------------------------------------------------------------------

  predicate NonEmpty(xs: Option<seq<string>>) {
    xs.Some? && xs.value != []
  }

  /** The policy contains a rule that needs the capability, whether or not it fires now. */
  predicate Requires(p: Policy, cap: Registry.Capability) {
    || (cap == Registry.CAP_SCHEDULE_BLOCK && p.schedule.Some? && p.schedule.value.blocks != [])
    || (cap == Registry.CAP_TIME_BUDGET && p.timeBudget.Some? && exists m :: m in p.timeBudget.value && m > 0)
    || (cap == Registry.CAP_DOMAIN_BLOCK && p.content.Some? && NonEmpty(p.content.value.blockedDomains))
    || (cap == Registry.CAP_APP_BLOCK && p.content.Some? && NonEmpty(p.content.value.blockedApps))
  }

  function CapIf(p: Policy, cap: Registry.Capability): seq<Registry.Capability> {
    if Requires(p, cap) then [cap] else []
  }

  function RequiredCapsOf(p: Option<Policy>): seq<Registry.Capability> {
    match p
    case None => []
    case Some(v) =>
      CapIf(v, Registry.CAP_SCHEDULE_BLOCK) + CapIf(v, Registry.CAP_TIME_BUDGET)
      + CapIf(v, Registry.CAP_DOMAIN_BLOCK) + CapIf(v, Registry.CAP_APP_BLOCK)
  }

  method RequiredCaps(p: Option<Policy>) returns (caps: seq<Registry.Capability>)
    ensures caps == RequiredCapsOf(p)
  {
    if p.None? {
      return [];
    }
    var v := p.value;
    caps := [];
    if v.schedule.Some? && |v.schedule.value.blocks| > 0 {
      caps := caps + [Registry.CAP_SCHEDULE_BLOCK];
    }
    if v.timeBudget.Some? {
      var i := 0;
      while i < 7 && v.timeBudget.value[i] <= 0
        invariant 0 <= i <= 7
        invariant forall j :: 0 <= j < i ==> v.timeBudget.value[j] <= 0
      {
        i := i + 1;
      }
      if i < 7 {
        assert v.timeBudget.value[i] in v.timeBudget.value;
        caps := caps + [Registry.CAP_TIME_BUDGET];
      }
    }
    if v.content.Some? {
      if NonEmpty(v.content.value.blockedDomains) {
        caps := caps + [Registry.CAP_DOMAIN_BLOCK];
      }
      if NonEmpty(v.content.value.blockedApps) {
        caps := caps + [Registry.CAP_APP_BLOCK];
      }
    }
  }

  lemma CapNamesDiffer()
    ensures Distinct([Registry.CAP_SCHEDULE_BLOCK, Registry.CAP_TIME_BUDGET,
                      Registry.CAP_DOMAIN_BLOCK, Registry.CAP_APP_BLOCK])
  {
    assert Registry.CAP_SCHEDULE_BLOCK[0] == 's' && Registry.CAP_TIME_BUDGET[0] == 't';
    assert Registry.CAP_DOMAIN_BLOCK[0] == 'd' && Registry.CAP_APP_BLOCK[0] == 'a';
  }

  /** Each needed capability is listed, nothing else is, and none twice. */
  lemma RequiredCapsExact(p: Policy)
    ensures forall cap :: cap in RequiredCapsOf(Some(p)) <==>
      || (cap == "schedule_block" && p.schedule.Some? && p.schedule.value.blocks != [])
      || (cap == "time_budget" && p.timeBudget.Some? && exists m :: m in p.timeBudget.value && m > 0)
      || (cap == "domain_block" && p.content.Some? && p.content.value.blockedDomains.Some?
          && p.content.value.blockedDomains.value != [])
      || (cap == "app_block" && p.content.Some? && p.content.value.blockedApps.Some?
          && p.content.value.blockedApps.value != [])
    ensures Distinct(RequiredCapsOf(Some(p)))
  {
    CapNamesDiffer();
  }

  /** Where a capability stands among the four. */
  function Place(cap: Registry.Capability): int {
    if cap == "schedule_block" then 0 else if cap == "time_budget" then 1 else if cap == "domain_block" then 2 else 3
  }

  /** They are listed in a fixed order: schedule, budget, domains, apps. */
  lemma RequiredCapsInOrder(p: Policy)
    ensures forall i, j :: 0 <= i < j < |RequiredCapsOf(Some(p))| ==>
      Place(RequiredCapsOf(Some(p))[i]) < Place(RequiredCapsOf(Some(p))[j])
  {
    CapNamesDiffer();
    hide Requires;
  }

  // ---- Resolve --------------------------------------------------------------------------

  /**
   * The resolver's collaborators, each a read-only query: the registry, the policy store, the
   * usage query (errors read as what it had counted) and the time zone database (unknown zones
   * read as UTC).
   */
  datatype Resolver = Resolver(
    device: string -> Result<Registry.Device>,
    policy: string -> Result<Option<Policy>>,
    override_: string -> Result<Option<Override>>,
    used: (string, Time) -> int,
    zone: (string, Time) -> LocalTime)

  function Allowed(p: Policy, weekday: int): int
    requires 0 <= weekday < 7
  {
    if p.timeBudget.Some? then p.timeBudget.value[weekday] else 0
  }

  /** Whole minutes, truncated. */
  function Minutes(used: int): int {
    if used >= 0 then used / Usage.MINUTE else -((-used) / Usage.MINUTE)
  }

  /** A positive budget for the day that the day's use has reached. */
  predicate BudgetSpent(p: Policy, used: int, weekday: int)
    requires 0 <= weekday < 7
  {
    0 < Allowed(p, weekday) <= Minutes(used)
  }

  function ListOr(content: Option<Content>, field: Content -> Option<seq<string>>): seq<string> {
    if content.Some? && field(content.value).Some? then field(content.value).value else []
  }

  /** Nothing is locked, blocked or required. */
  function Unrestricted(device: string, at: Time, person: Option<string>): ResolvedPolicy {
    ResolvedPolicy(device, at, person, false, "", [], [], [], ENFORCEMENT_ONLY, 0, 0, [])
  }

  /** What an effective policy means for a device at an instant, given its local time and its use since midnight. */
  ghost function Resolution(p: Policy, device: string, at: Time, person: Option<string>, local: LocalTime,
                            used: int): ResolvedPolicy {
    var byHours, byBudget := Locked(p.schedule, MinuteOfWeek(local)), BudgetSpent(p, used, local.weekday);
    var counted := Allowed(p, local.weekday) > 0;
    ResolvedPolicy(
      device, at, person,
      byHours || byBudget,
      if byHours then "schedule" else if byBudget then "time_budget_exceeded" else "",
      ListOr(p.content, (c: Content) => c.blockedDomains),
      ListOr(p.content, (c: Content) => c.blockedApps),
      ListOr(p.content, (c: Content) => c.blockedCategories),
      if p.monitoring.Some? then p.monitoring.value else ENFORCEMENT_ONLY,
      if counted then Allowed(p, local.weekday) else 0,
      if counted then Minutes(used) else 0,
      RequiredCapsOf(Some(p)))
  }

  /** Resolve's answer: the result, and whether a lookup failed on the way. */
  ghost predicate Resolves(r: Resolver, device: string, at: Time, result: ResolvedPolicy, failed: bool) {
    match r.device(device)
    case Err(_) => failed && result == Unrestricted(device, at, None)
    case Ok(dev) =>
      if dev.person.None? then !failed && result == Unrestricted(device, at, None)
      else
        match (r.policy(dev.person.value), r.override_(device))
        case (Ok(p), Ok(o)) =>
          !failed &&
          (match Merged(p, o)
           case None => result == Unrestricted(device, at, dev.person)
           case Some(m) =>
             var local := r.zone(m.timezone, at);
             result == Resolution(m, device, at, dev.person, local, r.used(device, local.startOfDay)))
        case _ => failed && result == Unrestricted(device, at, dev.person)
  }

  method Resolve(r: Resolver, device: string, at: Time) returns (result: ResolvedPolicy, failed: bool)
    ensures Resolves(r, device, at, result, failed)
  {
    result := ResolvedPolicy(device, at, None, false, "", [], [], [], ENFORCEMENT_ONLY, 0, 0, []);
    var dev := r.device(device);
    if dev.Err? {
      return result, true;
    }
    if dev.value.person.None? {
      return result, false;
    }
    result := result.(person := dev.value.person);
    var p := r.policy(dev.value.person.value);
    if p.Err? {
      return result, true;
    }
    var o := r.override_(device);
    if o.Err? {
      return result, true;
    }
    var merged := Merge(p.value, o.value);
    if merged.None? {
      return result, false;
    }
    var m := merged.value;
    var local := r.zone(m.timezone, at);
    result := Fill(result, m, local, r.used(device, local.startOfDay));
    failed := false;
  }

  /** The part of Resolve that fills the result in, field by field, from the merged policy. */
  method Fill(start: ResolvedPolicy, m: Policy, local: LocalTime, used: int) returns (result: ResolvedPolicy)
    requires start == Unrestricted(start.device, start.at, start.person)
    ensures result == Resolution(m, start.device, start.at, start.person, local, used)
  {
    hide EvalSchedule, Locked, RequiredCapsOf, Minutes;
    result := start;
    var caps := RequiredCaps(Some(m));
    result := result.(requiredCaps := caps);
    var (locked, reason) := EvalSchedule(m.schedule, local);
    EvalScheduleIsCircular(m.schedule, local);
    if locked {
      result := result.(screenLocked := true);
      result := result.(lockReason := reason);
    }
    if m.timeBudget.Some? {
      var allowed := m.timeBudget.value[local.weekday];
      if allowed > 0 {
        var usedMins := Minutes(used);
        result := result.(budgetMinutes := allowed);
        result := result.(budgetUsed := usedMins);
        if usedMins >= allowed && !result.screenLocked {
          result := result.(screenLocked := true);
          result := result.(lockReason := "time_budget_exceeded");
        }
      }
    }
    if m.content.Some? {
      if m.content.value.blockedDomains.Some? {
        result := result.(blockedDomains := m.content.value.blockedDomains.value);
      }
      if m.content.value.blockedApps.Some? {
        result := result.(blockedApps := m.content.value.blockedApps.value);
      }
      if m.content.value.blockedCategories.Some? {
        result := result.(blockedCategories := m.content.value.blockedCategories.value);
      }
    }
    if m.monitoring.Some? {
      result := result.(logLevel := m.monitoring.value);
    }
  }

  /**
   * A present budget locks once the day's entry is used up if and only if that entry is positive,
   * or the schedule locks anyway.
   */
  lemma BudgetLocksIffPositive(p: Policy, device: string, at: Time, person: Option<string>, local: LocalTime)
    requires p.timeBudget.Some?
    ensures
      var budget := p.timeBudget.value[local.weekday];
      (forall used :: Minutes(used) >= budget ==> Resolution(p, device, at, person, local, used).screenLocked)
      <==> budget > 0 || Locked(p.schedule, MinuteOfWeek(local))
  {
    hide Locked, RequiredCapsOf;
    var budget := p.timeBudget.value[local.weekday];
    if budget <= 0 && !Locked(p.schedule, MinuteOfWeek(local)) {
      assert Minutes(0) >= budget && !Resolution(p, device, at, person, local, 0).screenLocked;
    }
  }

  /**
   * The comment on the TimeBudget type reads a zero entry as no time at all. The code reads it as
   * no limit: a budget with no positive entry resolves like no budget, whatever the use.
   */
  lemma ZeroBudgetIsNoBudget(p: Policy, device: string, at: Time, person: Option<string>, local: LocalTime, used: int)
    requires p.timeBudget.Some? && forall m :: m in p.timeBudget.value ==> m <= 0
    ensures Resolution(p, device, at, person, local, used) ==
            Resolution(p.(timeBudget := None), device, at, person, local, used)
  {
    assert p.timeBudget.value[local.weekday] in p.timeBudget.value;
    var q := p.(timeBudget := None);
    forall cap
      ensures Requires(p, cap) == Requires(q, cap)
    {
    }
  }

  /** So a child allowed zero minutes on every day is never locked out by the budget. */
  lemma ZeroBudgetNeverLocks(device: string, at: Time, person: Option<string>, local: LocalTime, used: int)
    ensures
      var zero := EMPTY_POLICY.(timeBudget := Some([0, 0, 0, 0, 0, 0, 0]));
      !Resolution(zero, device, at, person, local, used).screenLocked
  {
    var zero := EMPTY_POLICY.(timeBudget := Some([0, 0, 0, 0, 0, 0, 0]));
    ZeroBudgetIsNoBudget(zero, device, at, person, local, used);
  }

  // ---- what Resolve answers, field by field ---------------------------------------------

  /** Whole minutes, without the division: u of them are in a non-negative duration. */
  predicate WholeMinutes(used: int, u: int) {
    used >= 0 ==> Usage.MINUTE * u <= used < Usage.MINUTE * (u + 1)
  }

  lemma MinutesExact(used: int, b: int)
    ensures WholeMinutes(used, Minutes(used))
    ensures b > 0 ==> (b <= Minutes(used) <==> Usage.MINUTE * b <= used)
  {
    if used >= 0 {
      assert used == Usage.MINUTE * Minutes(used) + used % Usage.MINUTE;
    }
  }

  /** A list the content policy gives, or the empty one. */
  predicate ListsOf(content: Option<Content>, given: Option<seq<string>>, listed: seq<string>) {
    if content.Some? && given.Some? then listed == given.value else listed == []
  }

  /**
   * The effective policy for a device whose owner's policy is p and whose override is o: each field
   * the override gives is the override's, each other one the owner's, and none where neither gives it.
   */
  ghost predicate InForce(p: Option<Policy>, o: Option<Override>, e: Policy) {
    && (o.Some? && o.value.timezone.Some? ==> e.timezone == o.value.timezone.value)
    && (o.Some? && o.value.timeBudget.Some? ==> e.timeBudget == o.value.timeBudget)
    && (o.Some? && o.value.schedule.Some? ==> e.schedule == o.value.schedule)
    && (o.Some? && o.value.content.Some? ==> e.content == o.value.content)
    && (o.Some? && o.value.monitoring.Some? ==> e.monitoring == o.value.monitoring)
    && (o.None? || o.value.timezone.None? ==> e.timezone == if p.Some? then p.value.timezone else "")
    && (o.None? || o.value.timeBudget.None? ==> e.timeBudget == if p.Some? then p.value.timeBudget else None)
    && (o.None? || o.value.schedule.None? ==> e.schedule == if p.Some? then p.value.schedule else None)
    && (o.None? || o.value.content.None? ==> e.content == if p.Some? then p.value.content else None)
    && (o.None? || o.value.monitoring.None? ==> e.monitoring == if p.Some? then p.value.monitoring else None)
  }

  lemma MergedIsInForce(p: Option<Policy>, o: Option<Override>, e: Policy)
    requires InForce(p, o, e) && (p.Some? || o.Some?)
    ensures Merged(p, o) == Some(e)
  {
  }

  lemma SomeInForce(p: Option<Policy>, o: Option<Override>) returns (e: Policy)
    requires p.Some? || o.Some?
    ensures InForce(p, o, e)
  {
    e := Merged(p, o).value;
  }

  /**
   * Override before person, in every field Resolve derives. With e the policy in force, local the
   * local time in e's zone and used the use since local midnight: the screen is locked iff a window
   * covers the minute or the day's positive budget is used up, for the reason given; and the budget,
   * lists, level and required capabilities are those of e.
   */
  lemma ResolvesInForce(r: Resolver, device: string, at: Time, result: ResolvedPolicy, failed: bool,
                        person: string, p: Option<Policy>, o: Option<Override>, e: Policy)
    requires r.device(device).Ok? && r.device(device).value.person == Some(person)
    requires r.policy(person) == Ok(p) && r.override_(device) == Ok(o) && (p.Some? || o.Some?)
    requires InForce(p, o, e) && Resolves(r, device, at, result, failed)
    ensures !failed && result.device == device && result.at == at && result.person == Some(person)
    ensures var local := r.zone(e.timezone, at);
      var used := r.used(device, local.startOfDay);
      var hours := Locked(e.schedule, 1440 * local.weekday + 60 * local.hour + local.minute);
      var b := if e.timeBudget.Some? then e.timeBudget.value[local.weekday] else 0;
      && (result.screenLocked <==> hours || (b > 0 && Usage.MINUTE * b <= used))
      && (hours ==> result.lockReason == "schedule")
      && (!hours && result.screenLocked ==> result.lockReason == "time_budget_exceeded")
      && (!result.screenLocked ==> result.lockReason == "")
      && (b > 0 ==> result.budgetMinutes == b && WholeMinutes(used, result.budgetUsed))
      && (b <= 0 ==> result.budgetMinutes == 0 && result.budgetUsed == 0)
    ensures e.content.Some? ==>
      && ListsOf(e.content, e.content.value.blockedDomains, result.blockedDomains)
      && ListsOf(e.content, e.content.value.blockedApps, result.blockedApps)
      && ListsOf(e.content, e.content.value.blockedCategories, result.blockedCategories)
    ensures e.content.None? ==>
      result.blockedDomains == [] && result.blockedApps == [] && result.blockedCategories == []
    ensures e.monitoring.Some? ==> result.logLevel == e.monitoring.value
    ensures e.monitoring.None? ==> result.logLevel == "enforcement_only"
    ensures result.requiredCaps == RequiredCapsOf(Some(e))
  {
    MergedIsInForce(p, o, e);
    var local := r.zone(e.timezone, at);
    var used := r.used(device, local.startOfDay);
    MinutesExact(used, if e.timeBudget.Some? then e.timeBudget.value[local.weekday] else 0);
    hide Merged, InForce, RequiredCapsOf, Locked, Minutes, WholeMinutes;
  }

  /** A device override's budget decides, whatever the owner's policy says. */
  lemma OverrideBudgetDecides(r: Resolver, device: string, at: Time, result: ResolvedPolicy, failed: bool,
                              person: string, p: Option<Policy>, o: Override, e: Policy)
    requires r.device(device).Ok? && r.device(device).value.person == Some(person)
    requires r.policy(person) == Ok(p) && r.override_(device) == Ok(Some(o)) && o.timeBudget.Some?
    requires InForce(p, Some(o), e) && Resolves(r, device, at, result, failed)
    ensures var local := r.zone(e.timezone, at);
      var b := o.timeBudget.value[local.weekday];
      b > 0 ==>
        && result.budgetMinutes == b
        && (result.screenLocked <==>
              Locked(e.schedule, 1440 * local.weekday + 60 * local.hour + local.minute)
              || Usage.MINUTE * b <= r.used(device, local.startOfDay))
  {
    ResolvesInForce(r, device, at, result, failed, person, p, Some(o), e);
    hide Resolves, Locked;
  }

  /**
   * Without an owner, or without a policy and an override, nothing is locked, blocked or required;
   * likewise when a lookup fails.
   */
  lemma ResolvesToNothing(r: Resolver, device: string, at: Time, result: ResolvedPolicy, failed: bool)
    requires Resolves(r, device, at, result, failed)
    ensures failed <==>
      || r.device(device).Err?
      || (r.device(device).value.person.Some?
          && (r.policy(r.device(device).value.person.value).Err? || r.override_(device).Err?))
    ensures failed || r.device(device).value.person.None?
            || (r.policy(r.device(device).value.person.value).value.None? && r.override_(device).value.None?) ==>
      && result.device == device && result.at == at && !result.screenLocked && result.lockReason == ""
      && result.blockedDomains == [] && result.blockedApps == [] && result.blockedCategories == []
      && result.logLevel == "enforcement_only" && result.budgetMinutes == 0 && result.budgetUsed == 0
      && result.requiredCaps == []
    ensures result.person == if r.device(device).Ok? then r.device(device).value.person else None
  {
    hide Locked, RequiredCapsOf, Minutes, BudgetSpent;
  }
}
