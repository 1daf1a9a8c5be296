/**
 * One agent check-in, in its order of effects: reconcile, check the token, log the reported events,
 * enforce, resolve, and hand over whatever waits in the mailbox.
 */
module Checkin {
  import opened Prelude
  import opened Registry
  import opened Coordinator
  import EventLog
  import EventModel
  import EventStore
  import Mailbox
  import Policy
  import RegistryReplay
  import Text
  import Usage

  const AGENT := "agent"
  const NOOP := "describe"

  const EVERY_CAPABILITY: set<Registry.Capability> :=
    {CAP_SCREEN_LOCK, CAP_TIME_BUDGET, CAP_APP_BLOCK, CAP_DOMAIN_BLOCK, CAP_SCHEDULE_BLOCK}

  /** What the dry run notes about a capability under a policy. */
  type Describe = (Registry.Capability, Policy.ResolvedPolicy) -> string

  /** The dry run reports every capability of its slice as applied, with a note. */
  function DryRun(slice: Slice, describe: Describe): (r: seq<PerRule>)
    ensures |r| == |slice.caps|
    ensures forall i :: 0 <= i < |r| ==>
      r[i] == PerRule(slice.caps[i], "applied", "", describe(slice.caps[i], slice.policy))
  {
    seq(|slice.caps|, i requires 0 <= i < |slice.caps| =>
      PerRule(slice.caps[i], "applied", "", describe(slice.caps[i], slice.policy)))
  }

  /** The agent backend as the coordinator sees it. */
  function AgentFace(): Backend {
    Backend(AGENT, EVERY_CAPABILITY, (d: Device) => Mailbox.CanHandle(d),
            (id: DeviceId, s: Slice) => Mailbox.Queued(s.caps))
  }

  /** The deployed backends: the agent first, then the catch-all that only reports. */
  function Deployed(describe: Describe): seq<Backend> {
    [AgentFace(), Backend(NOOP, EVERY_CAPABILITY, (d: Device) => true,
                          (id: DeviceId, s: Slice) => DryRun(s, describe))]
  }

  datatype ReportedEvent = ReportedEvent(kind: string, at: Time, attrs: EventModel.Attrs)

  /** What an agent presents. */
  datatype Request = Request(
    token: string, agentId: string, mac: string, ip: string, hostname: string,
    caps: seq<Registry.Capability>, events: seq<ReportedEvent>)

  function ObservationOf(q: Request, seenAt: Time): Observation {
    Observation("agent", seenAt, q.token, q.agentId, q.mac, q.ip, q.hostname, q.caps, "", "")
  }

  datatype Response =
    | MissingToken
    | InvalidToken
    | ServerError
    | Accepted(device: DeviceId, policy: Policy.ResolvedPolicy, capsAssigned: seq<Registry.Capability>)

  /** Everything a check-in can change. */
  datatype World = World(tables: Tables, log: seq<EventModel.Event>, pending: map<DeviceId, Slice>)

  /** What it is wired to. */
  datatype Wiring = Wiring(
    pick: Lookup, queries: Policy.Resolver, describe: Describe, lookup: Option<EventLog.PolicyLookup>)

  /** The random identifiers it draws and the clocks it reads, in order; rules(i) is for the i-th rule logged. */
  datatype Draws = Draws(device: DeviceId, seenAt: Time, seen: EventLog.Draw, events: seq<EventLog.Draw>,
                         now: Time, rules: nat -> EventLog.Draw)

  ghost predicate Usable(q: Request, draws: Draws) {
    && draws.seenAt != ZERO_TIME && draws.seen.now != ZERO_TIME && |draws.events| == |q.events|
    && (forall i :: 0 <= i < |draws.events| ==> draws.events[i].now != ZERO_TIME)
    && forall i: nat :: draws.rules(i).now != ZERO_TIME
  }

  /** The registry as the resolver and the coordinator query it. */
  function DeviceQuery(s: Tables): DeviceId -> Result<Device> {
    id => if id in s.devices then Ok(s.devices[id]) else Err("device not found")
  }

  /** The resolver over the registry's current tables. */
  function ResolverOver(s: Tables, r: Policy.Resolver): Policy.Resolver {
    r.(device := DeviceQuery(s))
  }

  /** A reported event as it is logged: the device and the person are the registry's, not the agent's. */
  function EventOf(e: ReportedEvent, id: DeviceId, person: Option<string>): EventModel.Event {
    EventModel.Event("", e.at, ZERO_TIME, e.kind, person, id, "", e.attrs)
  }

  /** The log after the reported events, those of unknown kinds left out. */
  ghost function Ingested(log: seq<EventModel.Event>, lookup: Option<EventLog.PolicyLookup>, id: DeviceId,
                          person: Option<string>, reported: seq<ReportedEvent>, draws: seq<EventLog.Draw>)
    : seq<EventModel.Event>
    requires |draws| == |reported|
  {
    if reported == [] then log
    else
      var n := |reported| - 1;
      var before := Ingested(log, lookup, id, person, reported[..n], draws[..n]);
      if EventModel.ValidKind(reported[n].kind) then
        EventLog.Appended(before, lookup, EventOf(reported[n], id, person), draws[n])
      else before
  }

  /** What the observe hook logs once an observation is reconciled. */
  function SeenEvent(obs: Observation, id: DeviceId, person: Option<string>): EventModel.Event {
    EventModel.Event("", obs.seenAt, ZERO_TIME, EventModel.DEVICE_SEEN, person, id, "",
                     map["source" := EventModel.JString(obs.source)])
  }

  /** The world after the observe hook, for the device the observation was bound to. */
  ghost function Witnessed(wires: Wiring, w: World, id: DeviceId, obs: Observation, draw: EventLog.Draw): World
    requires id in w.tables.devices
  {
    w.(log := EventLog.Appended(w.log, wires.lookup, SeenEvent(obs, id, w.tables.devices[id].person), draw))
  }

  /** What the rule hook logs for one rule; an outcome it does not know leaves the kind empty. */
  function RuleEvent(rule: RuleOutcome, id: DeviceId, person: Option<string>): EventModel.Event {
    var kind := if rule.outcome == "applied" then "policy_applied"
                else if rule.outcome == "failed" then "policy_failed"
                else if rule.outcome == UNENFORCEABLE then "policy_unenforceable"
                else "";
    var severity := if rule.outcome == "failed" then "error"
                    else if rule.outcome == UNENFORCEABLE then "warn"
                    else "info";
    var attrs := map["capability" := EventModel.JString(rule.cap), "backend" := EventModel.JString(rule.backend)];
    var noted := if rule.note == "" then attrs else attrs["note" := EventModel.JString(rule.note)];
    EventModel.Event("", ZERO_TIME, ZERO_TIME, kind, person, id, severity,
                     if rule.error == "" then noted else noted["error" := EventModel.JString(rule.error)])
  }

  ghost function RulesLogged(log: seq<EventModel.Event>, lookup: Option<EventLog.PolicyLookup>, id: DeviceId,
                             person: Option<string>, rules: seq<RuleOutcome>, draws: nat -> EventLog.Draw)
    : seq<EventModel.Event>
  {
    if rules == [] then log
    else
      var n := |rules| - 1;
      EventLog.Appended(RulesLogged(log, lookup, id, person, rules[..n], draws), lookup,
                        RuleEvent(rules[n], id, person), draws(n))
  }

  class AgentHandler {
    const registry: SQLiteRegistry
    const log: EventLog.Logger
    const mailbox: Mailbox.AgentBackend
    const queries: Policy.Resolver
    const describe: Describe

    constructor (registry: SQLiteRegistry, log: EventLog.Logger, mailbox: Mailbox.AgentBackend,
                 queries: Policy.Resolver, describe: Describe)
      ensures this.registry == registry && this.log == log && this.mailbox == mailbox
      ensures this.queries == queries && this.describe == describe
    {
      this.registry, this.log, this.mailbox, this.queries, this.describe := registry, log, mailbox, queries, describe;
    }

    function State(): World
      reads registry, log.store, mailbox
    {
      World(registry.State(), log.store.events, mailbox.pending)
    }

    function Wires(): Wiring {
      Wiring(registry.pick, queries, describe, log.lookup)
    }

    method Checkin(q: Request, draws: Draws) returns (r: Response)
      requires WellFormed(registry.State()) && draws.device !in registry.devices
      requires log.store.Valid() && Usable(q, draws)
      modifies registry, log.store, mailbox
      ensures log.store.Valid() && Handled(Wires(), old(State()), State(), q, draws, r)
    {
      if q.token == "" {
        return MissingToken;
      }
      hide Reconciled, WellFormed, Served, EventLog.Appended;
      var obs := ObservationOf(q, draws.seenAt);
      ghost var before := registry.State();
      var id := registry.Reconcile(obs, draws.device, draws.seenAt);
      ReconciledKeepsWellFormed(before, obs, registry.pick, draws.device, draws.seenAt, registry.State(), id);
      Observe(id, obs, draws.seen);
      r := Serve(id, q, draws);
    }

    /** The token check, the reported events, Enforce, Resolve and PullPending, for the reconciled device. */
    method Serve(id: DeviceId, q: Request, draws: Draws) returns (r: Response)
      requires id in registry.devices && log.store.Valid() && Usable(q, draws)
      modifies log.store, mailbox
      ensures log.store.Valid() && Served(Wires(), old(State()), State(), id, q, draws, r)
    {
      hide Policy.Resolves, Enforced, Deployed, Ingested, RulesLogged;
      var dev := registry.devices[id];
      if dev.token != Some(q.token) {
        return InvalidToken;
      }
      Ingest(id, dev.person, q.events, draws.events);
      var resolver := ResolverOver(registry.State(), queries);
      var rules, sent, failed := Enforce(Deployed(describe), resolver, id, draws.now);
      Deliver(id, sent);
      LogRules(id, dev.person, rules, draws.rules);
      if failed {
        r := ServerError;
      } else {
        var resolved, unresolved := Policy.Resolve(resolver, id, draws.now);
        if unresolved {
          r := ServerError;
        } else {
          var waiting := mailbox.PullPending(id);
          r := Accepted(id, resolved, if waiting.Some? then waiting.value.caps else []);
        }
      }
      assert Answered(resolver, id, draws.now, sent, failed, r, old(mailbox.pending), mailbox.pending);
    }

    /** The observe hook: the device was seen, and belongs to whom the registry says. */
    method Observe(id: DeviceId, obs: Observation, draw: EventLog.Draw)
      requires id in registry.devices && log.store.Valid() && draw.now != ZERO_TIME
      modifies log.store
      ensures log.store.Valid() && State() == Witnessed(Wires(), old(State()), id, obs, draw)
    {
      hide EventModel.ValidKind, EventLog.EffectiveLevel, EventLog.Redacted;
      var _ := log.Append(SeenEvent(obs, id, registry.devices[id].person), draw);
    }

    /** The rule hook, once for each rule. */
    method LogRules(id: DeviceId, person: Option<string>, rules: seq<RuleOutcome>, draws: nat -> EventLog.Draw)
      requires log.store.Valid() && forall i: nat :: draws(i).now != ZERO_TIME
      modifies log.store
      ensures log.store.Valid()
      ensures log.store.events == RulesLogged(old(log.store.events), log.lookup, id, person, rules, draws)
    {
      hide EventModel.ValidKind, EventLog.EffectiveLevel, EventLog.Redacted, RuleEvent;
      for i := 0 to |rules|
        invariant log.store.Valid()
        invariant log.store.events == RulesLogged(old(log.store.events), log.lookup, id, person, rules[..i], draws)
      {
        assert rules[..i + 1][..i] == rules[..i];
        var _ := log.Append(RuleEvent(rules[i], id, person), draws(i));
      }
      assert rules[..|rules|] == rules;
    }

    /** The reported events of known kinds, each through the redacting log writer. */
    method Ingest(id: DeviceId, person: Option<string>, reported: seq<ReportedEvent>, draws: seq<EventLog.Draw>)
      requires log.store.Valid() && |draws| == |reported|
      requires forall i :: 0 <= i < |draws| ==> draws[i].now != ZERO_TIME
      modifies log.store
      ensures log.store.Valid()
      ensures log.store.events == Ingested(old(log.store.events), log.lookup, id, person, reported, draws)
    {
      hide EventModel.ValidKind, EventLog.EffectiveLevel, EventLog.Redacted;
      for i := 0 to |reported|
        invariant log.store.Valid()
        invariant log.store.events ==
                  Ingested(old(log.store.events), log.lookup, id, person, reported[..i], draws[..i])
      {
        assert reported[..i + 1][..i] == reported[..i] && draws[..i + 1][..i] == draws[..i];
        if !EventModel.ValidKind(reported[i].kind) {
          continue;
        }
        var _ := log.Append(EventOf(reported[i], id, person), draws[i]);
      }
      assert reported[..|reported|] == reported && draws[..|draws|] == draws;
    }

    /** The coordinator's Apply calls that reach the mailbox. */
    method Deliver(id: DeviceId, sent: seq<Dispatch>)
      modifies mailbox
      ensures mailbox.pending == Delivered(old(mailbox.pending), id, sent)
    {
      for i := 0 to |sent|
        invariant mailbox.pending == Delivered(old(mailbox.pending), id, sent[..i])
      {
        assert sent[..i + 1][..i] == sent[..i];
        if sent[i].backend == AGENT {
          var _ := mailbox.Apply(id, sent[i].slice);
        }
      }
      assert sent[..|sent|] == sent;
    }
  }

  /** Apply reaches the mailbox only through dispatches to the agent backend. */
  function Delivered(pending: map<DeviceId, Slice>, id: DeviceId, sent: seq<Dispatch>): map<DeviceId, Slice> {
    if sent == [] then pending
    else
      var d := sent[|sent| - 1];
      var before := Delivered(pending, id, sent[..|sent| - 1]);
      if d.backend == AGENT then Mailbox.Applied(before, Mailbox.Apply(id, d.slice)) else before
  }

  /** Everything one check-in does, when no other handler runs in between. */
  ghost predicate Handled(wires: Wiring, w: World, w': World, q: Request, draws: Draws, r: Response) {
    if q.token == "" then r == MissingToken && w' == w
    else
      exists id ::
        && Reconciled(w.tables, ObservationOf(q, draws.seenAt), wires.pick, draws.device, draws.seenAt, w'.tables, id)
        && id in w'.tables.devices
        && Served(wires, Witnessed(wires, w.(tables := w'.tables), id, ObservationOf(q, draws.seenAt), draws.seen),
                  w', id, q, draws, r)
  }

  /** The part after Reconcile and its hook, for the device it returned. */
  ghost predicate Served(wires: Wiring, w: World, w': World, id: DeviceId, q: Request, draws: Draws, r: Response) {
    && id in w.tables.devices && w'.tables == w.tables
    && if w.tables.devices[id].token != Some(q.token) then r == InvalidToken && w' == w
       else
         && |draws.events| == |q.events|
         && exists rules, sent, failed ::
              var resolver, person := ResolverOver(w.tables, wires.queries), w.tables.devices[id].person;
              var reported := Ingested(w.log, wires.lookup, id, person, q.events, draws.events);
              && w'.log == RulesLogged(reported, wires.lookup, id, person, rules, draws.rules)
              && Enforced(Deployed(wires.describe), resolver, id, draws.now, rules, sent, failed)
              && Answered(resolver, id, draws.now, sent, failed, r, w.pending, w'.pending)
  }

  ghost predicate Answered(resolver: Policy.Resolver, id: DeviceId, now: Time, sent: seq<Dispatch>, failed: bool,
                           r: Response, pending: map<DeviceId, Slice>, pending': map<DeviceId, Slice>)
  {
    var delivered := Delivered(pending, id, sent);
    if failed then r == ServerError && pending' == delivered
    else
      exists resolved, unresolved :: Policy.Resolves(resolver, id, now, resolved, unresolved) &&
        if unresolved then r == ServerError && pending' == delivered
        else
          var waiting := Mailbox.Slot(delivered, id);
          && r == Accepted(id, resolved, if waiting.Some? then waiting.value.caps else [])
          && pending' == delivered - {id}
  }

  // ---- who is turned away, and what that leaves behind ----------------------------------

  /** The device Reconcile returns carries the presented token exactly when some device did. */
  lemma TokenDecides(s: Tables, obs: Observation, pick: Lookup, drawn: DeviceId, now: Time, s': Tables, id: DeviceId)
    requires WellFormed(s) && drawn !in s.devices && obs.agentToken != ""
    requires Reconciled(s, obs, pick, drawn, now, s', id)
    ensures id in s'.devices
    ensures s'.devices[id].token == Some(obs.agentToken) <==> TokenHolders(s, obs.agentToken) != {}
  {
    ReconciledKeepsWellFormed(s, obs, pick, drawn, now, s', id);
    RegistryReplay.TokensKept(s, obs, pick, drawn, now, s', id, obs.agentToken);
    RegistryReplay.StrongAnswer(s, obs, pick, drawn, now, s', id);
    hide Reconciled, WellFormed, Holders, HasUniversalMac;
    assert id in TokenHolders(s', obs.agentToken) <==> s'.devices[id].token == Some(obs.agentToken);
  }

  /** The first part of a check-in with a token, on its own. */
  lemma SplitHandled(wires: Wiring, w: World, w': World, q: Request, draws: Draws, r: Response) returns (id: DeviceId)
    requires Handled(wires, w, w', q, draws, r) && q.token != ""
    ensures Reconciled(w.tables, ObservationOf(q, draws.seenAt), wires.pick, draws.device, draws.seenAt, w'.tables, id)
    ensures id in w'.tables.devices
    ensures Served(wires, Witnessed(wires, w.(tables := w'.tables), id, ObservationOf(q, draws.seenAt), draws.seen),
                   w', id, q, draws, r)
  {
    hide Reconciled, Served, Witnessed;
    var obs := ObservationOf(q, draws.seenAt);
    id :| Reconciled(w.tables, obs, wires.pick, draws.device, draws.seenAt, w'.tables, id) && id in w'.tables.devices
      && Served(wires, Witnessed(wires, w.(tables := w'.tables), id, obs, draws.seen), w', id, q, draws, r);
  }

  lemma ServedRejection(wires: Wiring, w: World, w': World, id: DeviceId, q: Request, draws: Draws, r: Response)
    requires Served(wires, w, w', id, q, draws, r)
    ensures id in w.tables.devices
    ensures r == InvalidToken <==> w.tables.devices[id].token != Some(q.token)
    ensures r == InvalidToken ==> w' == w
  {
    hide Enforced, Delivered, Policy.Resolves, Mailbox.Slot, Ingested, RulesLogged;
  }

  /**
   * A check-in is turned away as invalid exactly when no device was issued its token. The mailbox
   * is then untouched, and the log has gained exactly the row of the observe hook, which ran first.
   */
  lemma RejectedIffTokenUnknown(wires: Wiring, w: World, w': World, q: Request, draws: Draws, r: Response)
    requires WellFormed(w.tables) && draws.device !in w.tables.devices && q.token != ""
    requires Handled(wires, w, w', q, draws, r)
    ensures r == InvalidToken <==> TokenHolders(w.tables, q.token) == {}
    ensures r == InvalidToken ==> w'.pending == w.pending
    ensures r == InvalidToken ==>
      exists id :: id in w'.tables.devices
        && w' == Witnessed(wires, w.(tables := w'.tables), id, ObservationOf(q, draws.seenAt), draws.seen)
  {
    hide Reconciled, WellFormed, TokenHolders, Served, Handled;
    var id := SplitHandled(wires, w, w', q, draws, r);
    var seen := Witnessed(wires, w.(tables := w'.tables), id, ObservationOf(q, draws.seenAt), draws.seen);
    ServedRejection(wires, seen, w', id, q, draws, r);
    TokenDecides(w.tables, ObservationOf(q, draws.seenAt), wires.pick, draws.device, draws.seenAt, w'.tables, id);
  }

  /**
   * Without its token, the observation still points to a known device: by agent_id, universal MAC
   * or two weak signals.
   */
  predicate PointsToKnown(s: Tables, obs: Observation) {
    || (obs.agentId != "" && Holders(s, AgentKind, obs.agentId) != {})
    || (HasUniversalMac(obs) && Holders(s, MacKind, obs.mac) != {})
    || |Confident(s, obs)| == 1
  }

  lemma WithoutToken(s: Tables, obs: Observation, pick: Lookup, drawn: DeviceId, now: Time, s': Tables, id: DeviceId)
    requires WellFormed(s) && drawn !in s.devices && TokenHolders(s, obs.agentToken) == {}
    requires Reconciled(s, obs, pick, drawn, now, s', id)
    ensures if PointsToKnown(s, obs) then
              id in s.devices && RegistryReplay.Binds(s, obs, pick, id) && s' == Merged(s, id, obs, StampOf(obs, now))
            else
              id == drawn && s' == Created(s, drawn, obs, StampOf(obs, now)).(pending := s'.pending)
  {
    hide Holders, Confident, HasUniversalMac, Merged, Created, Flagged, WellFormed;
    StrongMatchExists(s, obs, pick);
    ConfidentExist(s, obs);
    if StrongMatch(s, obs, pick).None? && |Confident(s, obs)| == 1 {
      SingletonSize(Confident(s, obs), id);
    }
  }

  /** Which device a rejected check-in has written to. */
  ghost predicate WrittenTo(wires: Wiring, w: World, w': World, q: Request, draws: Draws, id: DeviceId) {
    var s, s', obs := w.tables, w'.tables, ObservationOf(q, draws.seenAt);
    if PointsToKnown(s, obs) then
      && id in s.devices && RegistryReplay.Binds(s, obs, wires.pick, id) && s.devices[id].token != Some(q.token)
      && s' == Merged(s, id, obs, StampOf(obs, draws.seenAt))
    else
      && id == draws.device && id in s'.devices && s'.devices[id].token == None
      && s'.devices.Keys == s.devices.Keys + {id}
  }

  /**
   * A check-in turned away has been reconciled and logged all the same. If its observation points to
   * a known device, which does not hold the presented token, the observation's identities and
   * capabilities have been recorded on that device; otherwise exactly the drawn device has been
   * added, without a token. Either way that device has been logged as seen.
   */
  lemma RejectedStillWrites(wires: Wiring, w: World, w': World, q: Request, draws: Draws, r: Response)
    returns (id: DeviceId)
    requires WellFormed(w.tables) && draws.device !in w.tables.devices && q.token != ""
    requires Handled(wires, w, w', q, draws, r) && r == InvalidToken
    ensures WrittenTo(wires, w, w', q, draws, id)
    ensures id in w'.tables.devices && RecordedOn(w'.tables, id, ObservationOf(q, draws.seenAt))
    ensures w' == Witnessed(wires, w.(tables := w'.tables), id, ObservationOf(q, draws.seenAt), draws.seen)
  {
    hide Reconciled, WellFormed, TokenHolders, Served, Handled, PointsToKnown, RegistryReplay.Binds, Witnessed;
    var s, obs := w.tables, ObservationOf(q, draws.seenAt);
    id := SplitHandled(wires, w, w', q, draws, r);
    ServedRejection(wires, Witnessed(wires, w.(tables := w'.tables), id, obs, draws.seen), w', id, q, draws, r);
    RejectedIffTokenUnknown(wires, w, w', q, draws, r);
    WithoutToken(s, obs, wires.pick, draws.device, draws.seenAt, w'.tables, id);
    ReconciledRecords(s, obs, wires.pick, draws.device, draws.seenAt, w'.tables, id);
    if PointsToKnown(s, obs) {
      NotHolding(s, id, q.token);
    } else {
      CreatedIsNew(s, draws.device, obs, StampOf(obs, draws.seenAt));
    }
  }

  /** All the observation gives is recorded on d. */
  ghost predicate RecordedOn(s: Tables, d: DeviceId, obs: Observation) {
    && (forall kind, value :: RegistryReplay.Gives(obs, kind, value) ==> Identity(d, kind, value) in s.identities)
    && forall c :: c in obs.caps ==> CapRow(d, c) in s.caps
  }

  lemma ReconciledRecords(s: Tables, obs: Observation, pick: Lookup, drawn: DeviceId, now: Time, s': Tables,
                          id: DeviceId)
    requires Reconciled(s, obs, pick, drawn, now, s', id) && obs.source == "agent"
    ensures RecordedOn(s', id, obs)
  {
    RegistryReplay.ReconciledRows(s, obs, pick, drawn, now, s', id);
    RegistryReplay.SightedRows(s.identities, id, obs, SeenAt(obs, now));
    hide Reconciled, Sighted, RegistryReplay.Gives;
  }

  lemma NotHolding(s: Tables, id: DeviceId, token: string)
    requires id in s.devices && TokenHolders(s, token) == {}
    ensures s.devices[id].token != Some(token)
  {
    assert id !in TokenHolders(s, token);
  }

  lemma CreatedIsNew(s: Tables, drawn: DeviceId, obs: Observation, stamp: Stamp)
    ensures Created(s, drawn, obs, stamp).devices.Keys == s.devices.Keys + {drawn}
    ensures Created(s, drawn, obs, stamp).devices[drawn].token == None
  {
    hide Sighted, Registry.ReportedCaps;
  }

  lemma OwnerIsBound(s: Tables, obs: Observation, pick: Lookup, owner: DeviceId, id: DeviceId)
    requires TokenHolders(s, obs.agentToken) == {} && obs.agentId != "" && Holders(s, AgentKind, obs.agentId) == {owner}
    ensures PointsToKnown(s, obs)
    ensures RegistryReplay.Binds(s, obs, pick, id) ==> id == owner
  {
    hide Confident, HasUniversalMac;
    assert owner in Holders(s, AgentKind, obs.agentId);
  }

  /**
   * In particular an agent_id is enough: whoever names it writes onto the device that owns it, token
   * or no token, and has that device logged as seen.
   */
  lemma RejectedRecordsOnOwner(wires: Wiring, w: World, w': World, q: Request, draws: Draws, r: Response,
                               owner: DeviceId)
    requires WellFormed(w.tables) && draws.device !in w.tables.devices && q.token != ""
    requires Handled(wires, w, w', q, draws, r) && TokenHolders(w.tables, q.token) == {}
    requires q.agentId != "" && Holders(w.tables, AgentKind, q.agentId) == {owner}
    ensures r == InvalidToken && w'.tables.devices.Keys == w.tables.devices.Keys && owner in w'.tables.devices
    ensures RecordedOn(w'.tables, owner, ObservationOf(q, draws.seenAt))
    ensures w' == Witnessed(wires, w.(tables := w'.tables), owner, ObservationOf(q, draws.seenAt), draws.seen)
  {
    hide Reconciled, WellFormed, Served, Handled, Confident, Merged, RecordedOn, Witnessed, RegistryReplay.Binds,
         PointsToKnown, Holders, TokenHolders;
    RejectedIffTokenUnknown(wires, w, w', q, draws, r);
    var id := RejectedStillWrites(wires, w, w', q, draws, r);
    var s, obs := w.tables, ObservationOf(q, draws.seenAt);
    OwnerIsBound(s, obs, wires.pick, owner, id);
    MergedKeepsWellFormed(s, owner, obs, StampOf(obs, draws.seenAt));
  }

  /** One more sighting, no earlier than the others, adds its gap to the device's use if that is short. */
  lemma SightingAddsGap(log: seq<EventModel.Event>, lookup: Option<EventLog.PolicyLookup>, ev: EventModel.Event,
                        draw: EventLog.Draw, start: Time, latest: Time)
    requires ev.kind == EventModel.DEVICE_SEEN && ev.device != "" && ev.at != ZERO_TIME && ev.id == ""
    requires !EventStore.HasId(log, draw.id)
    requires latest in EventStore.SightingTimes(log, ev.device, start)
    requires forall t :: t in EventStore.SightingTimes(log, ev.device, start) ==> t <= latest <= ev.at
    ensures EventStore.UsageOf(EventLog.Appended(log, lookup, ev, draw), ev.device, start) ==
            EventStore.UsageOf(log, ev.device, start) + if ev.at - latest < Usage.GAP then ev.at - latest else 0
  {
    hide EventLog.EffectiveLevel, EventStore.HasId, Usage.Measure;
    var level := EventLog.EffectiveLevel(lookup, ev);
    var row := EventModel.Completed(EventLog.Redacted(ev, level), draw.id, draw.now, draw.recordedAt);
    assert EventLog.Appended(log, lookup, ev, draw) == log + [row];
    var before := EventStore.SightingTimes(log, ev.device, start);
    OneMoreSighting(log, row, start);
    Usage.MeasureWithLatest(before, latest, ev.at);
  }

  lemma OneMoreSighting(log: seq<EventModel.Event>, row: EventModel.Event, start: Time)
    requires row.kind == EventModel.DEVICE_SEEN && row.at >= start
    ensures EventStore.SightingTimes(log + [row], row.device, start) ==
            EventStore.SightingTimes(log, row.device, start) + {row.at}
  {
    assert row in log + [row];
  }

  /**
   * And so a token nobody holds can spend the owner's budget: a rejected check-in that names the
   * agent_id less than five minutes after the device's latest sighting raises the device's use by
   * exactly the time since then, and locks it if that completes the day's budget.
   */
  lemma RejectedSpendsBudget(wires: Wiring, w: World, w': World, q: Request, draws: Draws, r: Response,
                             owner: DeviceId, start: Time, latest: Time, p: Policy.Policy, weekday: int)
    requires WellFormed(w.tables) && draws.device !in w.tables.devices && q.token != "" && Usable(q, draws)
    requires Handled(wires, w, w', q, draws, r) && TokenHolders(w.tables, q.token) == {}
    requires q.agentId != "" && Holders(w.tables, AgentKind, q.agentId) == {owner} && owner != ""
    requires !EventStore.HasId(w.log, draws.seen.id)
    requires latest in EventStore.SightingTimes(w.log, owner, start)
    requires forall t :: t in EventStore.SightingTimes(w.log, owner, start) ==> t <= latest <= draws.seenAt
    requires 0 <= weekday < 7
    ensures r == InvalidToken
    ensures var gap := draws.seenAt - latest;
      var use := EventStore.UsageOf(w.log, owner, start) + if gap < Usage.GAP then gap else 0;
      && EventStore.UsageOf(w'.log, owner, start) == use
      && (Policy.BudgetSpent(p, EventStore.UsageOf(w'.log, owner, start), weekday) <==>
          0 < Policy.Allowed(p, weekday) <= use / Usage.MINUTE)
  {
    RejectedRecordsOnOwner(wires, w, w', q, draws, r, owner);
    var ev := SeenEvent(ObservationOf(q, draws.seenAt), owner, w'.tables.devices[owner].person);
    assert w'.log == EventLog.Appended(w.log, wires.lookup, ev, draws.seen);
    hide Handled, WellFormed, Holders, TokenHolders, EventLog.Appended, EventStore.UsageOf, EventStore.SightingTimes,
         EventStore.HasId, RecordedOn, Usable;
    assert ev.at == draws.seenAt != ZERO_TIME && ev.device == owner by {
      UsableTimes(q, draws);
    }
    SightingAddsGap(w.log, wires.lookup, ev, draws.seen, start, latest);
  }

  lemma UsableTimes(q: Request, draws: Draws)
    requires Usable(q, draws)
    ensures draws.seenAt != ZERO_TIME
  {
  }

  /** What reaches the log is the reporting device's own: the agent cannot name another device or person. */
  lemma {:induction false} IngestedIsOwn(log: seq<EventModel.Event>, lookup: Option<EventLog.PolicyLookup>,
                                         id: DeviceId, person: Option<string>,
                                         reported: seq<ReportedEvent>, draws: seq<EventLog.Draw>)
    requires |draws| == |reported|
    ensures forall e :: e in Ingested(log, lookup, id, person, reported, draws) ==>
      e in log || (e.device == id && e.person == person && EventModel.ValidKind(e.kind))
    decreases |reported|
  {
    hide EventModel.ValidKind, EventLog.EffectiveLevel;
    if reported != [] {
      var n := |reported| - 1;
      IngestedIsOwn(log, lookup, id, person, reported[..n], draws[..n]);
    }
  }

  /** A request with a valid token is served if and only if the device's policy resolves. */
  lemma ServedIffResolves(wires: Wiring, w: World, w': World, id: DeviceId, q: Request, draws: Draws, r: Response)
    requires Served(wires, w, w', id, q, draws, r) && w.tables.devices[id].token == Some(q.token)
    ensures r.Accepted? || r == ServerError
    ensures r.Accepted? <==>
            exists resolved :: Policy.Resolves(ResolverOver(w.tables, wires.queries), id, draws.now, resolved, false)
  {
    hide Policy.Resolves, Delivered, Deployed, Ingested, RulesLogged, Mailbox.Slot, Dispatches, DispatchedRules,
         Text.Sort;
    var resolver := ResolverOver(w.tables, wires.queries);
    forall a, failedA, b, failedB |
      Policy.Resolves(resolver, id, draws.now, a, failedA) && Policy.Resolves(resolver, id, draws.now, b, failedB)
      ensures failedA == failedB
    {
      ResolvesUnique(resolver, id, draws.now, a, failedA, b, failedB);
    }
  }

  // ---- what an accepted check-in hands over ---------------------------------------------

  /** The deployed backends meet what completeness asks of a list of backends. */
  lemma DeployedIsFaithful(describe: Describe)
    ensures Distinct(Names(Deployed(describe))) && Faithful(Deployed(describe))
  {
    var bs := Deployed(describe);
    assert AGENT[0] != NOOP[0];
    forall b, id, slice | b in bs
      ensures multiset(Coordinator.ReportedCaps(b.report(id, slice))) == multiset(slice.caps)
    {
      assert b == bs[0] || b == bs[1];
      assert Coordinator.ReportedCaps(b.report(id, slice)) == slice.caps;
    }
  }

  /** So every Enforce of the deployed server answers for exactly what the policy requires, and never leaves a gap. */
  lemma DeployedEnforceIsComplete(describe: Describe, r: Policy.Resolver, id: DeviceId, at: Time,
                                  rules: seq<RuleOutcome>, sent: seq<Dispatch>, failed: bool,
                                  dev: Device, resolved: Policy.ResolvedPolicy)
    requires Enforced(Deployed(describe), r, id, at, rules, sent, failed)
    requires r.device(id) == Ok(dev) && Policy.Resolves(r, id, at, resolved, false)
    ensures !failed && multiset(RuleCaps(rules)) == multiset(resolved.requiredCaps)
    ensures forall rule :: rule in rules ==>
      rule.backend == if dev.token.Some? && dev.token.value != "" then "agent" else "describe"
  {
    DeployedIsFaithful(describe);
    hide Enforced, Policy.Resolves, Faithful, Deployed, EVERY_CAPABILITY, RuleCaps;
    EnforceIsComplete(Deployed(describe), r, id, at, rules, sent, failed, dev, resolved);
    RequiredCapsKnown(r, id, at, resolved, false);
    forall rule | rule in rules
      ensures rule.backend == if Mailbox.CanHandle(dev) then AGENT else NOOP
    {
      RuleCapIsNeeded(rules, rule, resolved.requiredCaps);
      DeployedPick(describe, rule.cap, dev);
    }
  }

  lemma RuleCapIsNeeded(rules: seq<RuleOutcome>, rule: RuleOutcome, needed: seq<Registry.Capability>)
    requires rule in rules && multiset(RuleCaps(rules)) == multiset(needed)
    ensures rule.cap in needed
  {
    var i :| 0 <= i < |rules| && rules[i] == rule;
    assert RuleCaps(rules)[i] in multiset(RuleCaps(rules));
    assert rule.cap in multiset(needed);
  }

  lemma DeployedPick(describe: Describe, cap: Registry.Capability, dev: Device)
    requires cap in EVERY_CAPABILITY
    ensures Pick(Deployed(describe), cap, dev).Some?
    ensures Pick(Deployed(describe), cap, dev).value.name == if Mailbox.CanHandle(dev) then AGENT else NOOP
  {
    var bs := Deployed(describe);
    assert bs[0] == AgentFace() && bs[1..][0] == bs[1];
    assert Able(bs[0], cap, dev) <==> Mailbox.CanHandle(dev);
    assert Able(bs[1], cap, dev);
  }

  lemma {:induction false} AllToOne(bs: seq<Backend>, dev: Device, needed: seq<Registry.Capability>, name: string)
    requires forall cap :: cap in needed ==> PicksName(bs, cap, dev, name)
    ensures Share(bs, dev, needed, name) == needed
    ensures Order(bs, dev, needed) == if needed == [] then [] else [name]
  {
    hide Pick;
    if needed != [] {
      var front, cap := needed[..|needed| - 1], needed[|needed| - 1];
      assert needed == front + [cap];
      AllToOne(bs, dev, front, name);
    }
  }

  lemma AgentIsPicked(describe: Describe, cap: Registry.Capability, dev: Device)
    requires cap in EVERY_CAPABILITY && Mailbox.CanHandle(dev)
    ensures PicksName(Deployed(describe), cap, dev, AGENT)
  {
    assert Able(Deployed(describe)[0], cap, dev);
  }

  lemma RequiredCapsKnown(resolver: Policy.Resolver, id: DeviceId, now: Time, resolved: Policy.ResolvedPolicy,
                          failed: bool)
    requires Policy.Resolves(resolver, id, now, resolved, failed)
    ensures forall cap :: cap in resolved.requiredCaps ==> cap in EVERY_CAPABILITY
  {
  }

  /** For a device with a token, all of a non-empty need goes to the agent in one slice. */
  lemma AgentGetsEverything(describe: Describe, dev: Device, policy: Policy.ResolvedPolicy,
                            needed: seq<Registry.Capability>)
    requires Mailbox.CanHandle(dev) && forall cap :: cap in needed ==> cap in EVERY_CAPABILITY
    ensures var bs := Deployed(describe);
      Dispatches(bs, dev, policy, needed, Order(bs, dev, needed)) ==
      if needed == [] then [] else [Dispatch(AGENT, Slice(policy, needed))]
  {
    hide Order, Share, PicksName, Deployed, EVERY_CAPABILITY;
    forall cap | cap in needed
      ensures PicksName(Deployed(describe), cap, dev, AGENT)
    {
      AgentIsPicked(describe, cap, dev);
    }
    AllToOne(Deployed(describe), dev, needed, AGENT);
  }

  lemma DeliveredOne(pending: map<DeviceId, Slice>, id: DeviceId, slice: Slice)
    ensures Delivered(pending, id, []) == pending
    ensures Delivered(pending, id, [Dispatch(AGENT, slice)]) == pending[id := slice]
  {
    assert [Dispatch(AGENT, slice)][..0] == [];
  }

  /** One rule for each capability, in order, which the agent backend has queued. */
  predicate AllQueued(rules: seq<RuleOutcome>, needed: seq<Registry.Capability>) {
    && |rules| == |needed|
    && forall i :: 0 <= i < |rules| ==>
         rules[i] == RuleOutcome(needed[i], "agent", "applied", "", "queued for agent pickup")
  }

  lemma AgentQueuesEverything(describe: Describe, dev: Device, id: DeviceId, policy: Policy.ResolvedPolicy,
                              needed: seq<Registry.Capability>, sent: seq<Dispatch>)
    requires Mailbox.CanHandle(dev) && forall cap :: cap in needed ==> cap in EVERY_CAPABILITY
    requires sent == if needed == [] then [] else [Dispatch(AGENT, Slice(policy, needed))]
    ensures var bs := Deployed(describe);
      AllQueued(DispatchedRules(bs, id, sent) + Gaps(Unsatisfied(bs, dev, needed)), needed)
  {
    AgentLeavesNoGap(describe, dev, needed);
    DispatchedToAgent(describe, id, policy, needed);
    hide *;
    var bs := Deployed(describe);
    NoGaps(DispatchedRules(bs, id, sent), Unsatisfied(bs, dev, needed));
  }

  lemma NoGaps(rules: seq<RuleOutcome>, caps: seq<Registry.Capability>)
    requires caps == []
    ensures rules + Gaps(caps) == rules
  {
  }

  lemma {:induction false} AgentLeavesNoGap(describe: Describe, dev: Device, needed: seq<Registry.Capability>)
    requires Mailbox.CanHandle(dev) && forall cap :: cap in needed ==> cap in EVERY_CAPABILITY
    ensures Unsatisfied(Deployed(describe), dev, needed) == []
  {
    hide EVERY_CAPABILITY, Deployed, Pick;
    if needed != [] {
      AgentLeavesNoGap(describe, dev, needed[..|needed| - 1]);
      AgentIsPicked(describe, needed[|needed| - 1], dev);
    }
  }

  lemma DispatchedToAgent(describe: Describe, id: DeviceId, policy: Policy.ResolvedPolicy,
                          needed: seq<Registry.Capability>)
    ensures var bs := Deployed(describe);
      && AllQueued(DispatchedRules(bs, id, []), [])
      && AllQueued(DispatchedRules(bs, id, [Dispatch(AGENT, Slice(policy, needed))]), needed)
  {
    var bs := Deployed(describe);
    var d := Dispatch(AGENT, Slice(policy, needed));
    ReportedByAgent(describe, id, d);
    OneDispatch(bs, id, d);
    hide Deployed, ByName, EVERY_CAPABILITY, Reported, AgentFace;
    assert DispatchedRules(bs, id, []) == [];
  }

  lemma ReportedByAgent(describe: Describe, id: DeviceId, d: Dispatch)
    requires d.backend == AGENT
    ensures Reported(Deployed(describe), id, d) == Mailbox.Queued(d.slice.caps)
  {
    AgentByName(describe);
    hide Deployed, ByName, EVERY_CAPABILITY;
  }

  lemma AgentByName(describe: Describe)
    ensures ByName(Deployed(describe), AGENT) == Some(AgentFace())
  {
    var bs := Deployed(describe);
    assert AGENT[0] != NOOP[0];
    assert bs[..1] == [AgentFace()];
  }

  /** What an accepted check-in has dispatched, in terms of the policy it answers with. */
  lemma AcceptedDispatch(s: Tables, id: DeviceId, queries: Policy.Resolver, describe: Describe, token: string,
                         now: Time, rules: seq<RuleOutcome>, sent: seq<Dispatch>, resolved: Policy.ResolvedPolicy)
    requires id in s.devices && s.devices[id].token == Some(token) && token != ""
    requires Enforced(Deployed(describe), ResolverOver(s, queries), id, now, rules, sent, false)
    requires Policy.Resolves(ResolverOver(s, queries), id, now, resolved, false)
    ensures var needed := Text.Sort(resolved.requiredCaps);
      sent == (if needed == [] then [] else [Dispatch(AGENT, Slice(resolved.(requiredCaps := needed), needed))])
      && AllQueued(rules, needed)
  {
    var resolver, dev := ResolverOver(s, queries), s.devices[id];
    var needed := Text.Sort(resolved.requiredCaps);
    RequiredCapsKnown(resolver, id, now, resolved, false);
    Text.SortSorts(resolved.requiredCaps);
    AgentGetsEverything(describe, dev, resolved.(requiredCaps := needed), needed);
    hide Policy.Resolves, Order, Dispatches, DispatchedRules, Unsatisfied, Text.Sort, Deployed, EVERY_CAPABILITY,
         AllQueued, Gaps;
    var again, unresolved :| Policy.Resolves(resolver, id, now, again, unresolved) &&
      match resolver.device(id)
      case Err(_) => false && rules == [] && sent == []
      case Ok(d) =>
        if unresolved then false && rules == [] && sent == []
        else
          var ns := Text.Sort(again.requiredCaps);
          && sent == Dispatches(Deployed(describe), d, again.(requiredCaps := ns), ns, Order(Deployed(describe), d, ns))
          && rules == DispatchedRules(Deployed(describe), id, sent) + Gaps(Unsatisfied(Deployed(describe), d, ns));
    ResolvesUnique(resolver, id, now, again, unresolved, resolved, false);
    AgentQueuesEverything(describe, dev, id, resolved.(requiredCaps := needed), needed, sent);
  }

  /** The Enforce and the Resolve behind an accepted check-in. */
  lemma SplitAccepted(wires: Wiring, w: World, w': World, id: DeviceId, q: Request, draws: Draws, r: Response)
    returns (rules: seq<RuleOutcome>, sent: seq<Dispatch>)
    requires Served(wires, w, w', id, q, draws, r) && r.Accepted?
    ensures id in w.tables.devices && w.tables.devices[id].token == Some(q.token)
    ensures Enforced(Deployed(wires.describe), ResolverOver(w.tables, wires.queries), id, draws.now, rules, sent, false)
    ensures Policy.Resolves(ResolverOver(w.tables, wires.queries), id, draws.now, r.policy, false)
    ensures var waiting := Mailbox.Slot(Delivered(w.pending, id, sent), id);
      r.capsAssigned == if waiting.Some? then waiting.value.caps else []
    ensures w'.pending == Delivered(w.pending, id, sent) - {id}
    ensures |draws.events| == |q.events|
    ensures var person := w.tables.devices[id].person;
      w'.log == RulesLogged(Ingested(w.log, wires.lookup, id, person, q.events, draws.events), wires.lookup, id,
                            person, rules, draws.rules)
  {
    hide Enforced, Policy.Resolves, Delivered, Ingested, RulesLogged, Mailbox.Slot, ResolverOver, Deployed;
    var resolver, person := ResolverOver(w.tables, wires.queries), w.tables.devices[id].person;
    var reported := Ingested(w.log, wires.lookup, id, person, q.events, draws.events);
    var failed: bool;
    rules, sent, failed :|
      && w'.log == RulesLogged(reported, wires.lookup, id, person, rules, draws.rules)
      && Enforced(Deployed(wires.describe), resolver, id, draws.now, rules, sent, failed)
      && Answered(resolver, id, draws.now, sent, failed, r, w.pending, w'.pending);
  }

  /**
   * An accepted check-in hands over the sorted required capabilities when there are any.
   * When there are none, nothing is applied, and a slice left over from before is handed over
   * instead. Either way the device's slot is empty afterwards and no other slot has changed.
   */
  lemma CheckinHandsOver(wires: Wiring, w: World, w': World, id: DeviceId, q: Request, draws: Draws, r: Response)
    requires q.token != "" && Served(wires, w, w', id, q, draws, r) && r.Accepted?
    ensures r.capsAssigned ==
            if r.policy.requiredCaps != [] then Text.Sort(r.policy.requiredCaps)
            else if id in w.pending then w.pending[id].caps
            else []
    ensures w'.pending == w.pending - {id}
  {
    hide Enforced, Policy.Resolves, Delivered, Text.Sort, Served, Answered;
    var rules, sent := SplitAccepted(wires, w, w', id, q, draws, r);
    AcceptedDispatch(w.tables, id, wires.queries, wires.describe, q.token, draws.now, rules, sent, r.policy);
    var needed := Text.Sort(r.policy.requiredCaps);
    assert |needed| == |r.policy.requiredCaps|;
    DeliveredOne(w.pending, id, Slice(r.policy.(requiredCaps := needed), needed));
  }

  /**
   * The stale slice: whatever an Enforce queued for a policy with requirements is what the next
   * accepted check-in hands over, if by then the policy requires nothing.
   */
  lemma StaleSliceIsHandedOver(s: Tables, queries: Policy.Resolver, at: Time, rules: seq<RuleOutcome>,
                               sent: seq<Dispatch>, old_: Policy.ResolvedPolicy,
                               wires: Wiring, w: World, w': World, id: DeviceId, q: Request, draws: Draws, r: Response)
    requires id in s.devices && s.devices[id].token == Some(q.token) && q.token != ""
    requires Enforced(Deployed(wires.describe), ResolverOver(s, queries), id, at, rules, sent, false)
    requires Policy.Resolves(ResolverOver(s, queries), id, at, old_, false) && old_.requiredCaps != []
    requires w.pending == Delivered(map[], id, sent)
    requires Served(wires, w, w', id, q, draws, r) && r.Accepted? && r.policy.requiredCaps == []
    ensures r.capsAssigned == Text.Sort(old_.requiredCaps) && r.capsAssigned != []
  {
    hide Enforced, Policy.Resolves, Delivered, Text.Sort, Served;
    AcceptedDispatch(s, id, queries, wires.describe, q.token, at, rules, sent, old_);
    var needed := Text.Sort(old_.requiredCaps);
    assert |needed| == |old_.requiredCaps|;
    DeliveredOne(map[], id, Slice(old_.(requiredCaps := needed), needed));
    CheckinHandsOver(wires, w, w', id, q, draws, r);
  }

  // ---- a stale slice, concretely --------------------------------------------------------

  const TABLET := Device(Some("child"), "tablet", "tablet", Some("token"), "active", None, 0)
  const ONE_TABLET := EMPTY_TABLES.(devices := map["d" := TABLET])

  const BLOCKING := Policy.EMPTY_POLICY.(content := Some(Policy.Content(Some(["example.org"]), None, None)))

  /** Everyone's policy is p, and no device has been used. */
  function Everyone(p: Option<Policy.Policy>): Policy.Resolver {
    Policy.Resolver(
      (id: string) => Err("unknown"), (person: string) => Ok(p), (id: string) => Ok(None),
      (id: string, start: Time) => 0, (zone: string, at: Time) => Policy.Schedule.Local(0, 0, 0, 0))
  }

  function TabletDraws(): Draws {
    Draws("e", 2, EventLog.Draw("s", 2, 2), [], 3, i => EventLog.Draw("r", 3, 3))
  }

  const BARE_REQUEST := Request("token", "", "", "", "", [], [])

  lemma TabletIsMatched(pick: Lookup)
    ensures var obs := ObservationOf(BARE_REQUEST, 2);
      Reconciled(ONE_TABLET, obs, pick, "e", 2, Merged(ONE_TABLET, "d", obs, StampOf(obs, 2)), "d")
      && Merged(ONE_TABLET, "d", obs, StampOf(obs, 2)).devices == map["d" := TABLET.(lastSeen := Some(2))]
  {
    hide Sighted, Registry.ReportedCaps, Confident;
    assert TokenHolders(ONE_TABLET, "token") == {"d"};
  }

  lemma ResolutionNeeds(p: Policy.Policy, id: DeviceId, at: Time, person: Option<string>,
                        local: Policy.Schedule.LocalTime)
    ensures Policy.Resolution(p, id, at, person, local, 0).requiredCaps == Policy.RequiredCapsOf(Some(p))
  {
    hide Policy.Schedule.Locked, Policy.BudgetSpent, Policy.Minutes, Policy.RequiredCapsOf, Policy.ListOr;
  }

  lemma EveryoneAnswers(p: Option<Policy.Policy>, s: Tables, id: DeviceId)
    requires id in s.devices
    ensures var r := ResolverOver(s, Everyone(p));
      && r.device(id) == Ok(s.devices[id])
      && (forall person :: r.policy(person) == Ok(p))
      && (forall d :: r.override_(d) == Ok(None))
      && (forall d, start :: r.used(d, start) == 0)
      && (forall zone, at :: r.zone(zone, at) == Policy.Schedule.Local(0, 0, 0, 0))
  {
  }

  lemma EveryoneResolves(p: Policy.Policy, s: Tables, id: DeviceId, at: Time) returns (resolved: Policy.ResolvedPolicy)
    requires id in s.devices && s.devices[id].person.Some?
    ensures Policy.Resolves(ResolverOver(s, Everyone(Some(p))), id, at, resolved, false)
    ensures resolved.requiredCaps == Policy.RequiredCapsOf(Some(p))
  {
    hide Policy.Resolution, Policy.RequiredCapsOf, ResolverOver, Everyone;
    EveryoneAnswers(Some(p), s, id);
    var local := Policy.Schedule.Local(0, 0, 0, 0);
    resolved := Policy.Resolution(p, id, at, s.devices[id].person, local, 0);
    ResolutionNeeds(p, id, at, s.devices[id].person, local);
    assert Policy.Merged(Some(p), None) == Some(p);
  }

  lemma BlockingNeeds()
    ensures Policy.RequiredCapsOf(Some(BLOCKING)) == [CAP_DOMAIN_BLOCK]
  {
    Policy.CapNamesDiffer();
  }

  lemma NothingResolves(s: Tables, at: Time) returns (resolved: Policy.ResolvedPolicy)
    requires "d" in s.devices && s.devices["d"].person == Some("child")
    ensures Policy.Resolves(ResolverOver(s, Everyone(None)), "d", at, resolved, false)
    ensures resolved.requiredCaps == []
  {
    resolved := Policy.Unrestricted("d", at, Some("child"));
  }

  /** When the device and its policy resolve, Enforce has an answer. */
  lemma SomeEnforcement(bs: seq<Backend>, r: Policy.Resolver, id: DeviceId, at: Time,
                        dev: Device, resolved: Policy.ResolvedPolicy)
    returns (rules: seq<RuleOutcome>, sent: seq<Dispatch>)
    requires r.device(id) == Ok(dev) && Policy.Resolves(r, id, at, resolved, false)
    ensures Enforced(bs, r, id, at, rules, sent, false)
  {
    hide Policy.Resolves, Order, Share, Unsatisfied, DispatchedRules, Text.Sort;
    var needed := Text.Sort(resolved.requiredCaps);
    sent := Dispatches(bs, dev, resolved.(requiredCaps := needed), needed, Order(bs, dev, needed));
    rules := DispatchedRules(bs, id, sent) + Gaps(Unsatisfied(bs, dev, needed));
  }

  /** When the token matches and the policy resolves, the request is accepted with that policy. */
  lemma SomeAcceptance(wires: Wiring, w: World, id: DeviceId, q: Request, draws: Draws, resolved: Policy.ResolvedPolicy)
    returns (w': World, r: Response)
    requires id in w.tables.devices && w.tables.devices[id].token == Some(q.token) && |draws.events| == |q.events|
    requires Policy.Resolves(ResolverOver(w.tables, wires.queries), id, draws.now, resolved, false)
    ensures Served(wires, w, w', id, q, draws, r) && r.Accepted? && r.policy == resolved && w'.tables == w.tables
  {
    hide Enforced, Policy.Resolves, Delivered, Ingested, RulesLogged, Deployed;
    var resolver := ResolverOver(w.tables, wires.queries);
    var dev := w.tables.devices[id];
    var rules, sent := SomeEnforcement(Deployed(wires.describe), resolver, id, draws.now, dev, resolved);
    var delivered := Delivered(w.pending, id, sent);
    var waiting := Mailbox.Slot(delivered, id);
    r := Accepted(id, resolved, if waiting.Some? then waiting.value.caps else []);
    var person := w.tables.devices[id].person;
    var reported := Ingested(w.log, wires.lookup, id, person, q.events, draws.events);
    w' := World(w.tables, RulesLogged(reported, wires.lookup, id, person, rules, draws.rules), delivered - {id});
    assert Answered(resolver, id, draws.now, sent, false, r, w.pending, w'.pending);
  }

  /**
   * It happens: a tablet's policy blocks a domain and is enforced, the policy is removed, and the
   * tablet checks in. The answer's policy requires nothing, yet it assigns domain blocking.
   */
  lemma StaleSliceHappens(pick: Lookup, describe: Describe) returns (w: World, w': World, r: Response)
    ensures exists rules, sent ::
      && Enforced(Deployed(describe), ResolverOver(ONE_TABLET, Everyone(Some(BLOCKING))), "d", 1, rules, sent, false)
      && w == World(ONE_TABLET, [], Delivered(map[], "d", sent))
    ensures Handled(Wiring(pick, Everyone(None), describe, None), w, w', BARE_REQUEST, TabletDraws(), r)
    ensures r.Accepted? && r.policy.requiredCaps == [] && r.capsAssigned == [CAP_DOMAIN_BLOCK]
  {
    var wires, draws := Wiring(pick, Everyone(None), describe, None), TabletDraws();
    hide *;
    OneTabletKnown(Everyone(Some(BLOCKING)));
    SortOne(CAP_DOMAIN_BLOCK);
    var queued := EveryoneResolves(BLOCKING, ONE_TABLET, "d", 1);
    BlockingNeeds();
    var rules, sent := SomeEnforcement(Deployed(describe), ResolverOver(ONE_TABLET, Everyone(Some(BLOCKING))), "d", 1,
                                       TABLET, queued);
    w := World(ONE_TABLET, [], Delivered(map[], "d", sent));
    TabletIsMatched(pick);
    var s := Merged(ONE_TABLET, "d", ObservationOf(BARE_REQUEST, 2), StampOf(ObservationOf(BARE_REQUEST, 2), 2));
    var now := NothingResolves(s, 3);
    var seen := Witnessed(wires, w.(tables := s), "d", ObservationOf(BARE_REQUEST, 2), draws.seen);
    WitnessedKeeps(wires, w.(tables := s), "d", ObservationOf(BARE_REQUEST, 2), draws.seen);
    w', r := SomeAcceptance(wires, seen, "d", BARE_REQUEST, draws, now);
    ServedIsHandled(wires, w, w', "d", BARE_REQUEST, draws, r);
    StaleSliceIsHandedOver(ONE_TABLET, Everyone(Some(BLOCKING)), 1, rules, sent, queued,
                           wires, seen, w', "d", BARE_REQUEST, draws, r);
  }

  lemma WitnessedKeeps(wires: Wiring, w: World, id: DeviceId, obs: Observation, draw: EventLog.Draw)
    requires id in w.tables.devices
    ensures Witnessed(wires, w, id, obs, draw).tables == w.tables
    ensures Witnessed(wires, w, id, obs, draw).pending == w.pending
  {
  }

  lemma OneTabletKnown(r: Policy.Resolver)
    ensures "d" in ONE_TABLET.devices && ONE_TABLET.devices["d"] == TABLET
    ensures TABLET.person == Some("child") && TABLET.token == Some(BARE_REQUEST.token)
    ensures BARE_REQUEST.token != "" && BARE_REQUEST.events == []
    ensures TabletDraws().device == "e" && TabletDraws().seenAt == 2 && TabletDraws().now == 3
    ensures TabletDraws().events == []
    ensures ResolverOver(ONE_TABLET, r).device("d") == Ok(TABLET)
  {
  }

  lemma SortOne(cap: Registry.Capability)
    ensures Text.Sort([cap]) == [cap]
  {
    assert [cap][1..] == [];
  }

  lemma ServedIsHandled(wires: Wiring, w: World, w': World, id: DeviceId, q: Request, draws: Draws, r: Response)
    requires q.token != "" && id in w'.tables.devices
    requires Served(wires, Witnessed(wires, w.(tables := w'.tables), id, ObservationOf(q, draws.seenAt), draws.seen),
                    w', id, q, draws, r)
    requires Reconciled(w.tables, ObservationOf(q, draws.seenAt), wires.pick, draws.device, draws.seenAt, w'.tables, id)
    ensures Handled(wires, w, w', q, draws, r)
  {
    hide Served, Reconciled, Witnessed;
  }
}
