/**
 * The device registry: the tables it keeps, what one observation does to them, and the
 * class whose statements do it.
 */
module Registry {
  import opened Prelude
  import Mac

  type DeviceId = string
  type Capability = string

  const CAP_SCREEN_LOCK: Capability := "screen_lock"
  const CAP_TIME_BUDGET: Capability := "time_budget"
  const CAP_APP_BLOCK: Capability := "app_block"
  const CAP_DOMAIN_BLOCK: Capability := "domain_block"
  const CAP_SCHEDULE_BLOCK: Capability := "schedule_block"

  /** The four kinds the reconciler writes; a caller of Upsert may name any other. */
  datatype IdentityKind = MacKind | IpKind | HostnameKind | AgentKind | OtherKind(name: string)

  /** A row of network_identities; UNIQUE(device_id, kind, value) makes it a key. */
  datatype Identity = Identity(device: DeviceId, kind: IdentityKind, value: string)

  /** A row of devices. updatedAt is the database's own stamp, in whole seconds. */
  datatype Device = Device(
    person: Option<string>, title: string, kind: string,
    token: Option<string>, state: string, lastSeen: Option<Time>, updatedAt: Time)

  /** A row of device_capabilities. */
  datatype CapRow = CapRow(device: DeviceId, cap: Capability)

  datatype PendingMerge = PendingMerge(source: DeviceId, candidates: seq<DeviceId>)

  /** One sighting of a device. Empty strings and the zero time mean "not given". */
  datatype Observation = Observation(
    source: string, seenAt: Time, agentToken: string, agentId: string,
    mac: string, ip: string, hostname: string, caps: seq<Capability>,
    title: string, kind: string)

  /** An identity handed to Upsert. */
  datatype GivenIdentity = GivenIdentity(kind: IdentityKind, value: string, lastSeen: Option<Time>)

  /** The four tables. identities maps each row to its last_seen. */
  datatype Tables = Tables(
    devices: map<DeviceId, Device>,
    identities: map<Identity, Time>,
    caps: set<CapRow>,
    pending: seq<PendingMerge>)

  const EMPTY_TABLES := Tables(map[], map[], {}, [])

  // ---- lookups --------------------------------------------------------------------------

  /** What a single-row query selects by. */
  datatype Key = ByToken(token: string) | ByIdentity(kind: IdentityKind, value: string)

  /** Which of several matching rows a single-row query happens to return first. */
  type Lookup = f: (Key, set<DeviceId>) -> DeviceId
    | forall k: Key, ds: set<DeviceId> :: ds != {} ==> f(k, ds) in ds
    ghost witness SomeRow

  ghost function SomeRow(k: Key, ds: set<DeviceId>): (d: DeviceId)
    ensures ds != {} ==> d in ds
  {
    if ds == {} then "" else var d :| d in ds; d
  }

  function Holders(s: Tables, kind: IdentityKind, value: string): set<DeviceId> {
    set r | r in s.identities && r.kind == kind && r.value == value :: r.device
  }

  function TokenHolders(s: Tables, token: string): set<DeviceId> {
    set d | d in s.devices && s.devices[d].token == Some(token)
  }

  predicate HasUniversalMac(obs: Observation) {
    obs.mac != "" && !Mac.IsRandomizedMAC(obs.mac)
  }

  /** Layers 1 to 3: the device a strong signal selects. */
  function StrongMatch(s: Tables, obs: Observation, pick: Lookup): Option<DeviceId> {
    if obs.agentToken != "" && TokenHolders(s, obs.agentToken) != {} then
      Some(pick(ByToken(obs.agentToken), TokenHolders(s, obs.agentToken)))
    else if obs.agentId != "" && Holders(s, AgentKind, obs.agentId) != {} then
      Some(pick(ByIdentity(AgentKind, obs.agentId), Holders(s, AgentKind, obs.agentId)))
    else if HasUniversalMac(obs) && Holders(s, MacKind, obs.mac) != {} then
      Some(pick(ByIdentity(MacKind, obs.mac), Holders(s, MacKind, obs.mac)))
    else None
  }

  /** Whether d holds the given identity; an empty value is no signal. */
  function Hit(s: Tables, d: DeviceId, kind: IdentityKind, value: string): (n: nat)
    ensures n <= 1
  {
    if value != "" && Identity(d, kind, value) in s.identities then 1 else 0
  }

  /** A MAC is a weak signal only when it is randomized. */
  function WeakMac(obs: Observation): string {
    if Mac.IsRandomizedMAC(obs.mac) then obs.mac else ""
  }

  /** How many of the observation's weak signals (IP, hostname, randomized MAC) point to device d. */
  function WeakHits(s: Tables, obs: Observation, d: DeviceId): nat {
    Hit(s, d, IpKind, obs.ip) + Hit(s, d, HostnameKind, obs.hostname) + Hit(s, d, MacKind, WeakMac(obs))
  }

  /** How many weak signals the observation carries. */
  function WeakSignals(obs: Observation): nat {
    (if obs.ip != "" then 1 else 0) + (if obs.hostname != "" then 1 else 0) + (if WeakMac(obs) != "" then 1 else 0)
  }

  /** Layer 4: the devices corroborated by at least two weak signals. */
  function Confident(s: Tables, obs: Observation): set<DeviceId> {
    set r | r in s.identities && WeakHits(s, obs, r.device) >= 2 :: r.device
  }

  // ---- effects --------------------------------------------------------------------------

  function SeenAt(obs: Observation, now: Time): Time {
    if obs.seenAt == ZERO_TIME then now else obs.seenAt
  }

  /** The two times a merge writes: when the device was seen, and the database's clock. */
  datatype Stamp = Stamp(seen: Time, second: Time)

  function StampOf(obs: Observation, now: Time): Stamp {
    Stamp(SeenAt(obs, now), WholeSecond(now))
  }

  /** Record one identity on device d, if it is given; a row already there gets a new last_seen. */
  function Noted(rows: map<Identity, Time>, d: DeviceId, kind: IdentityKind, value: string,
                 seen: Time): map<Identity, Time> {
    if value == "" then rows else rows[Identity(d, kind, value) := seen]
  }

  /** Every identity of the observation recorded on device d, randomized MACs included. */
  function Sighted(rows: map<Identity, Time>, d: DeviceId, obs: Observation, seen: Time): map<Identity, Time> {
    Noted(Noted(Noted(Noted(rows, d, AgentKind, obs.agentId, seen),
                      d, MacKind, obs.mac, seen),
                d, IpKind, obs.ip, seen),
          d, HostnameKind, obs.hostname, seen)
  }

  function CapRows(d: DeviceId, caps: seq<Capability>): set<CapRow> {
    set c | c in caps :: CapRow(d, c)
  }

  /** Only an agent's word is taken for what the device can enforce. */
  function ReportedCaps(d: DeviceId, obs: Observation): set<CapRow> {
    if obs.source == "agent" then CapRows(d, obs.caps) else {}
  }

  function Touched(s: Tables, d: DeviceId, stamp: Stamp): map<DeviceId, Device> {
    if d in s.devices then
      s.devices[d := s.devices[d].(lastSeen := Some(stamp.seen), updatedAt := stamp.second)]
    else s.devices
  }

  function Merged(s: Tables, d: DeviceId, obs: Observation, stamp: Stamp): Tables {
    Tables(
      Touched(s, d, stamp),
      Sighted(s.identities, d, obs, stamp.seen),
      s.caps + ReportedCaps(d, obs),
      s.pending)
  }

  function NewDevice(obs: Observation, stamp: Stamp): Device {
    var title :=
      if obs.title != "" then obs.title
      else if obs.hostname != "" then obs.hostname
      else if obs.agentId != "" then "agent:" + obs.agentId
      else if obs.mac != "" then "mac:" + obs.mac
      else "unknown device";
    Device(None, title, if obs.kind == "" then "unknown" else obs.kind, None,
           if obs.source == "scan" then "discovered" else "active", Some(stamp.seen), stamp.second)
  }

  function Created(s: Tables, drawn: DeviceId, obs: Observation, stamp: Stamp): Tables {
    Merged(s.(devices := s.devices[drawn := NewDevice(obs, stamp)]), drawn, obs, stamp)
  }

  /** At most one row is appended, listing exactly the given devices as candidates. */
  ghost predicate Flagged(before: seq<PendingMerge>, after: seq<PendingMerge>, source: DeviceId, ds: set<DeviceId>) {
    if |ds| < 2 then after == before
    else
      && |after| == |before| + 1
      && after == before + [PendingMerge(source, after[|before|].candidates)]
      && Lists(after[|before|].candidates, ds)
  }

  /**
   * One Reconcile, from tables s to tables s', binding the observation to device id.
   * drawn is the identifier newID would draw and now the clock it would read.
   */
  ghost predicate Reconciled(s: Tables, obs: Observation, pick: Lookup, drawn: DeviceId, now: Time,
                             s': Tables, id: DeviceId)
  {
    var stamp := StampOf(obs, now);
    var strong := StrongMatch(s, obs, pick);
    if strong.Some? then
      id == strong.value && s' == Merged(s, id, obs, stamp)
    else if |Confident(s, obs)| == 1 then
      id in Confident(s, obs) && s' == Merged(s, id, obs, stamp)
    else
      && id == drawn
      && s' == Created(s, drawn, obs, stamp).(pending := s'.pending)
      && Flagged(s.pending, s'.pending, drawn, Confident(s, obs))
  }

  /** Foreign keys: every row points at a device that exists. */
  ghost predicate WellFormed(s: Tables) {
    && (forall r :: r in s.identities ==> r.device in s.devices)
    && (forall c :: c in s.caps ==> c.device in s.devices)
    && (forall m :: m in s.pending ==> m.source in s.devices && forall d :: d in m.candidates ==> d in s.devices)
  }

  function GivenTime(g: GivenIdentity, now: Time): Time {
    if g.lastSeen.Some? then g.lastSeen.value else now
  }

  /** The rows Upsert writes for the identities it is given, later ones last. */
  function GivenRows(d: DeviceId, given: seq<GivenIdentity>, now: Time): map<Identity, Time> {
    if given == [] then map[]
    else
      var g := given[|given| - 1];
      GivenRows(d, given[..|given| - 1], now)[Identity(d, g.kind, g.value) := GivenTime(g, now)]
  }

  lemma NoGivenRows(d: DeviceId, given: seq<GivenIdentity>, now: Time)
    ensures GivenRows(d, given[..0], now) == map[]
  {
  }

  /** One more given identity is one more row. */
  lemma MoreGivenRows(rows: map<Identity, Time>, start: map<Identity, Time>, d: DeviceId,
                      given: seq<GivenIdentity>, i: nat, now: Time)
    requires i < |given| && rows == start + GivenRows(d, given[..i], now)
    ensures rows[Identity(d, given[i].kind, given[i].value) := GivenTime(given[i], now)] ==
            start + GivenRows(d, given[..i + 1], now)
  {
    assert given[..i + 1][..i] == given[..i];
  }

  /** A row as Upsert stores it. */
  function Stored(row: Device, now: Time): Device {
    row.(state := if row.state == "" then "active" else row.state, updatedAt := WholeSecond(now))
  }

  function Saved(s: Tables, id: DeviceId, row: Device, given: seq<GivenIdentity>, caps: seq<Capability>,
                 now: Time): Tables {
    Tables(
      s.devices[id := Stored(row, now)],
      s.identities + GivenRows(id, given, now),
      s.caps + CapRows(id, caps),
      s.pending)
  }

  // ---- facts about the lookups ----------------------------------------------------------

  lemma HoldersIff(s: Tables, kind: IdentityKind, value: string, d: DeviceId)
    ensures d in Holders(s, kind, value) <==> Identity(d, kind, value) in s.identities
  {
    if Identity(d, kind, value) in s.identities {
      var r := Identity(d, kind, value);
      assert r.device == d;
    }
  }

  lemma ConfidentIff(s: Tables, obs: Observation, d: DeviceId)
    ensures d in Confident(s, obs) <==> WeakHits(s, obs, d) >= 2
  {
    if WeakHits(s, obs, d) >= 2 {
      var r :| r in s.identities && r.device == d;
    }
  }

  lemma StrongMatchExists(s: Tables, obs: Observation, pick: Lookup)
    requires WellFormed(s)
    ensures StrongMatch(s, obs, pick).Some? ==> StrongMatch(s, obs, pick).value in s.devices
  {
  }

  lemma ConfidentExist(s: Tables, obs: Observation)
    requires WellFormed(s)
    ensures Confident(s, obs) <= s.devices.Keys
  {
  }

  lemma MergedKeepsWellFormed(s: Tables, d: DeviceId, obs: Observation, stamp: Stamp)
    requires WellFormed(s) && d in s.devices
    ensures WellFormed(Merged(s, d, obs, stamp))
    ensures Merged(s, d, obs, stamp).devices.Keys == s.devices.Keys
  {
  }

  lemma FlaggedKeepsWellFormed(s: Tables, after: seq<PendingMerge>, source: DeviceId, ds: set<DeviceId>)
    requires WellFormed(s) && source in s.devices && ds <= s.devices.Keys
    requires Flagged(s.pending, after, source, ds)
    ensures WellFormed(s.(pending := after))
  {
    if after != s.pending {
      var n := |s.pending|;
      forall m | m in after
        ensures m.source in s.devices && forall d :: d in m.candidates ==> d in s.devices
      {
        var i :| 0 <= i < |after| && after[i] == m;
        if i < n {
          assert after[..n][i] == m;
          assert m in s.pending;
        }
      }
    }
  }

  /** Foreign keys hold after every Reconcile, no device disappears, and the answer exists. */
  lemma ReconciledKeepsWellFormed(s: Tables, obs: Observation, pick: Lookup, drawn: DeviceId, now: Time, s': Tables,
                                  id: DeviceId)
    requires WellFormed(s) && Reconciled(s, obs, pick, drawn, now, s', id)
    ensures WellFormed(s') && id in s'.devices && s.devices.Keys <= s'.devices.Keys
  {
    StrongMatchExists(s, obs, pick);
    ConfidentExist(s, obs);
    var stamp := StampOf(obs, now);
    if StrongMatch(s, obs, pick).Some? || |Confident(s, obs)| == 1 {
      MergedKeepsWellFormed(s, id, obs, stamp);
    } else {
      var grown := s.(devices := s.devices[drawn := NewDevice(obs, stamp)]);
      assert WellFormed(grown);
      MergedKeepsWellFormed(grown, drawn, obs, stamp);
      FlaggedKeepsWellFormed(Created(s, drawn, obs, stamp), s'.pending, drawn, Confident(s, obs));
    }
  }

  /** How many of the listed pairs device d holds. */
  function Held(s: Tables, pairs: seq<(IdentityKind, string)>, d: DeviceId): nat {
    if pairs == [] then 0
    else
      var p := pairs[|pairs| - 1];
      Held(s, pairs[..|pairs| - 1], d) + if Identity(d, p.0, p.1) in s.identities then 1 else 0
  }

  function Count(hits: map<DeviceId, nat>, d: DeviceId): nat {
    if d in hits then hits[d] else 0
  }

  function Incremented(hits: map<DeviceId, nat>, rows: set<DeviceId>): map<DeviceId, nat> {
    map d | d in hits.Keys + rows :: Count(hits, d) + if d in rows then 1 else 0
  }

  lemma IncrementOne(hits: map<DeviceId, nat>, rows: set<DeviceId>, d: DeviceId)
    requires d !in rows
    ensures Incremented(hits, rows)[d := Count(Incremented(hits, rows), d) + 1] == Incremented(hits, rows + {d})
  {
  }

  ghost predicate Tallies(s: Tables, pairs: seq<(IdentityKind, string)>, hits: map<DeviceId, nat>) {
    forall d :: Count(hits, d) == Held(s, pairs, d)
  }

  lemma TallyGrows(s: Tables, pairs: seq<(IdentityKind, string)>, i: nat, hits: map<DeviceId, nat>)
    requires i < |pairs|
    requires Tallies(s, pairs[..i], hits)
    ensures Tallies(s, pairs[..i + 1], Incremented(hits, Holders(s, pairs[i].0, pairs[i].1)))
  {
    var pair := pairs[i];
    var rows := Holders(s, pair.0, pair.1);
    var hits' := Incremented(hits, rows);
    assert pairs[..i + 1][..i] == pairs[..i];
    forall d
      ensures Count(hits', d) == Held(s, pairs[..i + 1], d)
    {
      HoldersIff(s, pair.0, pair.1, d);
    }
  }

  lemma HitsAreConfident(s: Tables, obs: Observation, hits: map<DeviceId, nat>)
    requires forall d :: Count(hits, d) == WeakHits(s, obs, d)
    ensures Repeated(hits, hits.Keys) == Confident(s, obs)
  {
    forall d
      ensures d in Repeated(hits, hits.Keys) <==> d in Confident(s, obs)
    {
      ConfidentIff(s, obs, d);
      assert Count(hits, d) == WeakHits(s, obs, d);
    }
  }

  // ---- the statements -------------------------------------------------------------------

  class SQLiteRegistry {
    var devices: map<DeviceId, Device>
    var identities: map<Identity, Time>
    var caps: set<CapRow>
    var pending: seq<PendingMerge>
    const pick: Lookup

    function State(): Tables
      reads this
    {
      Tables(devices, identities, caps, pending)
    }

    constructor (pick: Lookup)
      ensures State() == EMPTY_TABLES && this.pick == pick
    {
      devices, identities, caps, pending := map[], map[], {}, [];
      this.pick := pick;
    }

    method FindDeviceByAgentToken(token: string) returns (r: Option<DeviceId>)
      ensures r == if TokenHolders(State(), token) == {} then None
                   else Some(pick(ByToken(token), TokenHolders(State(), token)))
    {
      var rows := set d | d in devices && devices[d].token == Some(token);
      assert rows == TokenHolders(State(), token);
      r := if rows == {} then None else Some(pick(ByToken(token), rows));
    }

    method FindByIdentity(kind: IdentityKind, value: string) returns (r: Option<DeviceId>)
      ensures r == if Holders(State(), kind, value) == {} then None
                   else Some(pick(ByIdentity(kind, value), Holders(State(), kind, value)))
    {
      var rows := set r | r in identities && r.kind == kind && r.value == value :: r.device;
      assert rows == Holders(State(), kind, value);
      r := if rows == {} then None else Some(pick(ByIdentity(kind, value), rows));
    }

    method TouchIdentity(deviceId: DeviceId, kind: IdentityKind, value: string, seen: Time)
      requires deviceId in devices
      modifies this`identities
      ensures identities == old(identities)[Identity(deviceId, kind, value) := seen]
    {
      identities := identities[Identity(deviceId, kind, value) := seen];
    }

    method AddCapability(deviceId: DeviceId, cap: Capability)
      requires deviceId in devices
      modifies this`caps
      ensures caps == old(caps) + {CapRow(deviceId, cap)}
    {
      caps := caps + {CapRow(deviceId, cap)};
    }

    /** One guarded touch of mergeObservation. */
    method TouchGiven(deviceId: DeviceId, kind: IdentityKind, value: string, seen: Time)
      requires deviceId in devices
      modifies this`identities
      ensures identities == Noted(old(identities), deviceId, kind, value, seen)
    {
      if value != "" {
        TouchIdentity(deviceId, kind, value, seen);
      }
    }

    method AddCapabilities(deviceId: DeviceId, given: seq<Capability>)
      requires deviceId in devices
      modifies this`caps
      ensures caps == old(caps) + CapRows(deviceId, given)
    {
      for i := 0 to |given|
        invariant caps == old(caps) + CapRows(deviceId, given[..i])
      {
        AddCapability(deviceId, given[i]);
        assert given[..i + 1] == given[..i] + [given[i]];
      }
      assert given[..|given|] == given;
    }

    method MergeObservation(deviceId: DeviceId, obs: Observation, now: Time)
      requires deviceId in devices
      modifies this
      ensures State() == Merged(old(State()), deviceId, obs, StampOf(obs, now))
    {
      var seen := obs.seenAt;
      if seen == ZERO_TIME {
        seen := now;
      }
      TouchGiven(deviceId, AgentKind, obs.agentId, seen);
      TouchGiven(deviceId, MacKind, obs.mac, seen);
      TouchGiven(deviceId, IpKind, obs.ip, seen);
      TouchGiven(deviceId, HostnameKind, obs.hostname, seen);
      if obs.source == "agent" {
        AddCapabilities(deviceId, obs.caps);
      }
      devices := devices[deviceId := devices[deviceId].(lastSeen := Some(seen), updatedAt := WholeSecond(now))];
    }

    /** Per device, how many of the observation's weak signals it holds. */
    method FindWeakHits(obs: Observation) returns (hits: map<DeviceId, nat>)
      ensures forall d :: Count(hits, d) == WeakHits(State(), obs, d)
    {
      var pairs := ListWeakPairs(obs);
      hits := map[];
      for i := 0 to |pairs|
        invariant Tallies(State(), pairs[..i], hits)
      {
        var rows := set r | r in identities && r.kind == pairs[i].0 && r.value == pairs[i].1 :: r.device;
        assert rows == Holders(State(), pairs[i].0, pairs[i].1);
        TallyGrows(State(), pairs, i, hits);
        hits := CountRows(hits, rows);
      }
      assert pairs[..|pairs|] == pairs;
      HeldIsWeakHits(State(), obs, pairs);
    }

    method CreatePendingMerge(source: DeviceId, candidates: seq<DeviceId>)
      modifies this`pending
      ensures pending == old(pending) + [PendingMerge(source, candidates)]
    {
      pending := pending + [PendingMerge(source, candidates)];
    }

    /** Inserts the row, or replaces it when the identifier exists; then adds what it was given. */
    method Upsert(id: DeviceId, row: Device, given: seq<GivenIdentity>, reported: seq<Capability>, drawn: DeviceId,
                  now: Time)
      returns (saved: DeviceId)
      modifies this
      ensures saved == if id == "" then drawn else id
      ensures State() == Saved(old(State()), saved, row, given, reported, now)
    {
      hide GivenRows, CapRows;
      saved := id;
      if saved == "" {
        saved := drawn;
      }
      NoGivenRows(saved, given, now);
      assert identities + GivenRows(saved, given[..0], now) == identities;
      var stored := row;
      if stored.state == "" {
        stored := stored.(state := "active");
      }
      stored := stored.(updatedAt := WholeSecond(now));
      devices := devices[saved := stored];
      for i := 0 to |given|
        invariant saved in devices && devices == old(devices)[saved := stored]
        invariant caps == old(caps) && pending == old(pending)
        invariant identities == old(identities) + GivenRows(saved, given[..i], now)
      {
        MoreGivenRows(identities, old(identities), saved, given, i, now);
        TouchIdentity(saved, given[i].kind, given[i].value, GivenTime(given[i], now));
      }
      assert given[..|given|] == given;
      AddCapabilities(saved, reported);
    }

    method CreateFromObservation(obs: Observation, drawn: DeviceId, now: Time) returns (id: DeviceId)
      modifies this
      ensures id == drawn && State() == Created(old(State()), drawn, obs, StampOf(obs, now))
    {
      var seen := obs.seenAt;
      if seen == ZERO_TIME {
        seen := now;
      }
      var title := obs.title;
      if title == "" {
        if obs.hostname != "" {
          title := obs.hostname;
        } else if obs.agentId != "" {
          title := "agent:" + obs.agentId;
        } else if obs.mac != "" {
          title := "mac:" + obs.mac;
        } else {
          title := "unknown device";
        }
      }
      var kind := obs.kind;
      if kind == "" {
        kind := "unknown";
      }
      var state := "active";
      if obs.source == "scan" {
        state := "discovered";
      }
      var row := Device(None, title, kind, None, state, Some(seen), ZERO_TIME);
      assert Stored(row, now) == NewDevice(obs, StampOf(obs, now));
      id := Upsert("", row, [], [], drawn, now);
      assert State() == old(State()).(devices := old(devices)[drawn := NewDevice(obs, StampOf(obs, now))]);
      MergeObservation(id, obs, now);
    }

    /** Layers 1 to 3, in order; the first that finds a device decides. */
    method FindStrong(obs: Observation) returns (found: Option<DeviceId>)
      ensures found == StrongMatch(State(), obs, pick)
    {
      found := None;
      if obs.agentToken != "" {
        found := FindDeviceByAgentToken(obs.agentToken);
      }
      if found.None? && obs.agentId != "" {
        found := FindByIdentity(AgentKind, obs.agentId);
      }
      if found.None? && obs.mac != "" && !Mac.IsRandomizedMAC(obs.mac) {
        found := FindByIdentity(MacKind, obs.mac);
      }
    }

    method FindConfident(obs: Observation) returns (confident: seq<DeviceId>)
      ensures Lists(confident, Confident(State(), obs)) && |confident| == |Confident(State(), obs)|
    {
      var hits := FindWeakHits(obs);
      confident := AtLeastTwo(hits);
      HitsAreConfident(State(), obs, hits);
      ListsLength(confident, Confident(State(), obs));
    }

    method Reconcile(obs: Observation, drawn: DeviceId, now: Time) returns (id: DeviceId)
      requires WellFormed(State())
      modifies this
      ensures Reconciled(old(State()), obs, pick, drawn, now, State(), id)
    {
      var found := FindStrong(obs);
      if found.Some? {
        id := found.value;
        StrongMatchExists(State(), obs, pick);
        MergeObservation(id, obs, now);
        return;
      }
      var confident := FindConfident(obs);
      ConfidentExist(State(), obs);
      if |confident| == 1 {
        id := confident[0];
        MergeObservation(id, obs, now);
        return;
      }
      id := CreateFromObservation(obs, drawn, now);
      if |confident| >= 2 {
        CreatePendingMerge(id, confident);
      }
    }
  }

  /** Reading one query's rows, in any order: hits[id]++ for each. */
  method CountRows(counted: map<DeviceId, nat>, rows: set<DeviceId>) returns (hits: map<DeviceId, nat>)
    ensures hits == Incremented(counted, rows)
  {
    hits := counted;
    var todo := rows;
    assert hits == Incremented(counted, {});
    assert rows - todo == {};
    while todo != {}
      invariant todo <= rows
      invariant hits == Incremented(counted, rows - todo)
      decreases todo
    {
      var id :| id in todo;
      ghost var done := rows - todo;
      IncrementOne(counted, done, id);
      assert rows - (todo - {id}) == done + {id};
      hits := hits[id := Count(hits, id) + 1];
      todo := todo - {id};
    }
    assert rows - todo == rows;
  }

  function Repeated(hits: map<DeviceId, nat>, among: set<DeviceId>): set<DeviceId> {
    set d | d in among && d in hits && hits[d] >= 2
  }

  lemma ListsMore(confident: seq<DeviceId>, hits: map<DeviceId, nat>, among: set<DeviceId>, d: DeviceId)
    requires Lists(confident, Repeated(hits, among)) && d !in among && d in hits
    ensures Lists(if hits[d] >= 2 then confident + [d] else confident, Repeated(hits, among + {d}))
  {
    assert Repeated(hits, among + {d}) == Repeated(hits, among) + if hits[d] >= 2 then {d} else {};
    assert d !in confident;
  }

  /** The devices counted at least twice, in whatever order the map yields them. */
  method AtLeastTwo(hits: map<DeviceId, nat>) returns (confident: seq<DeviceId>)
    ensures Lists(confident, Repeated(hits, hits.Keys))
  {
    confident := [];
    ghost var done: set<DeviceId> := {};
    var todo := hits.Keys;
    while todo != {}
      invariant done !! todo && done + todo == hits.Keys
      invariant Lists(confident, Repeated(hits, done))
      decreases |todo|
    {
      var id :| id in todo;
      ListsMore(confident, hits, done, id);
      if hits[id] >= 2 {
        confident := confident + [id];
      }
      todo := todo - {id};
      done := done + {id};
    }
    assert done == hits.Keys;
  }

  /** The pairs findWeakHits looks up, in its order. */
  function WeakPairs(obs: Observation): seq<(IdentityKind, string)> {
    (if obs.ip != "" then [(IpKind, obs.ip)] else [])
    + (if obs.hostname != "" then [(HostnameKind, obs.hostname)] else [])
    + (if obs.mac != "" && Mac.IsRandomizedMAC(obs.mac) then [(MacKind, obs.mac)] else [])
  }

  lemma {:induction false} HeldAppend(s: Tables, xs: seq<(IdentityKind, string)>, ys: seq<(IdentityKind, string)>,
                                      d: DeviceId)
    ensures Held(s, xs + ys, d) == Held(s, xs, d) + Held(s, ys, d)
  {
    if ys == [] {
      assert xs + ys == xs;
    } else {
      var front := ys[..|ys| - 1];
      assert (xs + ys)[..|xs + ys| - 1] == xs + front;
      HeldAppend(s, xs, front, d);
    }
  }

  lemma HeldIsWeakHits(s: Tables, obs: Observation, pairs: seq<(IdentityKind, string)>)
    requires pairs == WeakPairs(obs)
    ensures forall d :: Held(s, pairs, d) == WeakHits(s, obs, d)
  {
    var ips := if obs.ip != "" then [(IpKind, obs.ip)] else [];
    var names := if obs.hostname != "" then [(HostnameKind, obs.hostname)] else [];
    var macs := if obs.mac != "" && Mac.IsRandomizedMAC(obs.mac) then [(MacKind, obs.mac)] else [];
    hide Mac.IsRandomizedMAC;
    forall d
      ensures Held(s, pairs, d) == WeakHits(s, obs, d)
    {
      HeldAppend(s, ips + names, macs, d);
      HeldAppend(s, ips, names, d);
      HeldSingle(s, IpKind, obs.ip, d);
      HeldSingle(s, HostnameKind, obs.hostname, d);
      HeldSingle(s, MacKind, obs.mac, d);
      assert Held(s, [], d) == 0;
    }
  }

  lemma HeldSingle(s: Tables, kind: IdentityKind, value: string, d: DeviceId)
    ensures Held(s, [(kind, value)], d) == if Identity(d, kind, value) in s.identities then 1 else 0
  {
    assert [(kind, value)][..0] == [];
  }

  method ListWeakPairs(obs: Observation) returns (pairs: seq<(IdentityKind, string)>)
    ensures pairs == WeakPairs(obs)
  {
    pairs := [];
    if obs.ip != "" {
      pairs := pairs + [(IpKind, obs.ip)];
    }
    if obs.hostname != "" {
      pairs := pairs + [(HostnameKind, obs.hostname)];
    }
    if obs.mac != "" && Mac.IsRandomizedMAC(obs.mac) {
      pairs := pairs + [(MacKind, obs.mac)];
    }
  }
}
