/**
 * Strong identifiers over whole runs of the registry. The schema's comment says agent_ids and
 * universal MACs "remain effectively unique"; this module proves exactly when they do.
 */
module RegistryOwnership {
  import opened Prelude
  import opened Registry
  import opened RegistryReplay
  import Mac

  // ---- runs -----------------------------------------------------------------------------

  /** A whole call on the registry. pick may differ from call to call; a Save's id is the one given or drawn. */
  datatype Op =
    | Observe(obs: Observation, pick: Lookup, drawn: DeviceId, now: Time)
    | Save(id: DeviceId, row: Device, given: seq<GivenIdentity>, caps: seq<Capability>, now: Time)

  ghost predicate Step(s: Tables, op: Op, s': Tables) {
    match op
    case Observe(obs, pick, drawn, now) =>
      drawn !in s.devices && exists id :: Reconciled(s, obs, pick, drawn, now, s', id)
    case Save(id, row, given, caps, now) => id != "" && s' == Saved(s, id, row, given, caps, now)
  }

  /** states[i] is what the tables hold before the i-th call; the tables start empty. */
  ghost predicate Run(states: seq<Tables>, ops: seq<Op>) {
    && |states| == |ops| + 1
    && states[0] == EMPTY_TABLES
    && forall i :: 0 <= i < |ops| ==> Step(states[i], ops[i], states[i + 1])
  }

  // ---- uniqueness -----------------------------------------------------------------------

  /** Identities the reconciler treats as strong. */
  predicate IsStrong(kind: IdentityKind, value: string) {
    kind == AgentKind || (kind == MacKind && !Mac.IsRandomizedMAC(value))
  }

  /** No strong identity is recorded on two devices. */
  ghost predicate StrongUnique(s: Tables) {
    forall kind, value, d, e ::
      IsStrong(kind, value) && Identity(d, kind, value) in s.identities && Identity(e, kind, value) in s.identities
      ==> d == e
  }

  /** Some other device than d already holds this identity. */
  ghost predicate HeldElsewhere(s: Tables, d: DeviceId, kind: IdentityKind, value: string) {
    exists e :: e != d && Identity(e, kind, value) in s.identities
  }

  /**
   * What a caller can check before the call: the device the call will write to is already
   * known, and one of the strong identities about to be written belongs to another device.
   */
  ghost predicate Conflict(s: Tables, op: Op) {
    match op
    case Observe(obs, pick, _, _) =>
      var d := StrongMatch(s, obs, pick);
      && d.Some?
      && ((obs.agentId != "" && HeldElsewhere(s, d.value, AgentKind, obs.agentId))
          || (HasUniversalMac(obs) && HeldElsewhere(s, d.value, MacKind, obs.mac)))
    case Save(id, _, given, _, _) =>
      exists g :: g in given && IsStrong(g.kind, g.value) && HeldElsewhere(s, id, g.kind, g.value)
  }

  /** Without a strong match, nobody holds a strong identity of the observation. */
  lemma UnmatchedIsUnheld(s: Tables, obs: Observation, pick: Lookup, d: DeviceId, kind: IdentityKind, value: string)
    requires StrongMatch(s, obs, pick).None? && IsStrong(kind, value) && Gives(obs, kind, value)
    ensures Identity(d, kind, value) !in s.identities
  {
    HoldersIff(s, kind, value, d);
  }

  /** A call writes identities to one device only. */
  ghost predicate WritesOnly(s: Tables, s': Tables, id: DeviceId, gives: (IdentityKind, string) -> bool) {
    forall d, kind, value ::
      Identity(d, kind, value) in s'.identities <==>
      Identity(d, kind, value) in s.identities || (d == id && gives(kind, value))
  }

  lemma UniqueAfterWrite(s: Tables, s': Tables, id: DeviceId, gives: (IdentityKind, string) -> bool)
    requires StrongUnique(s) && WritesOnly(s, s', id, gives)
    ensures StrongUnique(s') <==>
      forall kind, value :: IsStrong(kind, value) && gives(kind, value) ==> !HeldElsewhere(s, id, kind, value)
  {
    hide IsStrong;
    if StrongUnique(s') {
      forall kind, value | IsStrong(kind, value) && gives(kind, value)
        ensures !HeldElsewhere(s, id, kind, value)
      {
        assert Identity(id, kind, value) in s'.identities;
      }
    }
    if forall kind, value :: IsStrong(kind, value) && gives(kind, value) ==> !HeldElsewhere(s, id, kind, value) {
      forall kind, value, d, e |
        IsStrong(kind, value) && Identity(d, kind, value) in s'.identities && Identity(e, kind, value) in s'.identities
        ensures d == e
      {
      }
    }
  }

  lemma ObserveWrites(s: Tables, obs: Observation, pick: Lookup, drawn: DeviceId, now: Time, s': Tables, id: DeviceId)
    requires Reconciled(s, obs, pick, drawn, now, s', id)
    ensures WritesOnly(s, s', id, (kind, value) => Gives(obs, kind, value))
  {
    ReconciledRows(s, obs, pick, drawn, now, s', id);
    SightedRows(s.identities, id, obs, SeenAt(obs, now));
    hide Sighted, Gives, Reconciled;
  }

  lemma SaveWrites(s: Tables, id: DeviceId, row: Device, given: seq<GivenIdentity>, caps: seq<Capability>, now: Time)
    ensures WritesOnly(s, Saved(s, id, row, given, caps, now), id,
                       (kind, value) => exists g :: g in given && g.kind == kind && g.value == value)
  {
    GivenRowsKeys(id, given, now);
    hide GivenRows;
  }

  /** One observation keeps strong identifiers unique exactly when it does not conflict. */
  lemma ObserveKeepsUniqueIff(s: Tables, obs: Observation, pick: Lookup, drawn: DeviceId, now: Time, s': Tables,
                              id: DeviceId)
    requires StrongUnique(s) && Reconciled(s, obs, pick, drawn, now, s', id)
    ensures StrongUnique(s') <==> !Conflict(s, Observe(obs, pick, drawn, now))
  {
    hide StrongMatch, StrongUnique, Sighted, Confident, Flagged, ReportedCaps, Merged, Created, HeldElsewhere;
    var gives := (kind, value) => Gives(obs, kind, value);
    ObserveWrites(s, obs, pick, drawn, now, s', id);
    UniqueAfterWrite(s, s', id, gives);
    if StrongMatch(s, obs, pick).None? {
      forall kind, value | IsStrong(kind, value) && gives(kind, value)
        ensures !HeldElsewhere(s, id, kind, value)
      {
        NobodyElse(s, obs, pick, id, kind, value);
      }
    } else {
      assert gives(AgentKind, obs.agentId) <==> obs.agentId != "";
      assert gives(MacKind, obs.mac) && IsStrong(MacKind, obs.mac) <==> HasUniversalMac(obs);
    }
  }

  lemma NobodyElse(s: Tables, obs: Observation, pick: Lookup, id: DeviceId, kind: IdentityKind, value: string)
    requires StrongMatch(s, obs, pick).None? && IsStrong(kind, value) && Gives(obs, kind, value)
    ensures !HeldElsewhere(s, id, kind, value)
  {
    hide StrongMatch, IsStrong, Gives;
    forall e
      ensures Identity(e, kind, value) !in s.identities
    {
      UnmatchedIsUnheld(s, obs, pick, e, kind, value);
    }
  }

  /** So does any call, Upsert included. */
  lemma StepKeepsUniqueIff(s: Tables, op: Op, s': Tables)
    requires StrongUnique(s) && Step(s, op, s')
    ensures StrongUnique(s') <==> !Conflict(s, op)
  {
    hide StrongMatch, StrongUnique, Sighted, Confident, Flagged, ReportedCaps, Merged, Created, HeldElsewhere,
         Reconciled, WritesOnly, IsStrong;
    match op
    case Observe(obs, pick, drawn, now) =>
      var id :| Reconciled(s, obs, pick, drawn, now, s', id);
      ObserveKeepsUniqueIff(s, obs, pick, drawn, now, s', id);
    case Save(id, row, given, caps, now) =>
      SaveWrites(s, id, row, given, caps, now);
      UniqueAfterWrite(s, s', id, (kind, value) => exists g :: g in given && g.kind == kind && g.value == value);
  }

  /** Identities are never deleted. */
  lemma StepKeepsIdentities(s: Tables, op: Op, s': Tables)
    requires Step(s, op, s')
    ensures s.identities.Keys <= s'.identities.Keys
  {
    match op
    case Observe(obs, pick, drawn, now) =>
      var id :| Reconciled(s, obs, pick, drawn, now, s', id);
      ReconciledRows(s, obs, pick, drawn, now, s', id);
      SightedRows(s.identities, id, obs, SeenAt(obs, now));
      hide *;
    case Save(id, row, given, caps, now) =>
  }

  lemma {:induction false} IdentitiesGrow(states: seq<Tables>, ops: seq<Op>, i: nat, j: nat)
    requires Run(states, ops) && i <= j <= |ops|
    ensures states[i].identities.Keys <= states[j].identities.Keys
  {
    hide Step;
    if i < j {
      IdentitiesGrow(states, ops, i, j - 1);
      StepKeepsIdentities(states[j - 1], ops[j - 1], states[j]);
    }
  }

  lemma DuplicatesStay(s: Tables, s': Tables)
    requires s.identities.Keys <= s'.identities.Keys && StrongUnique(s')
    ensures StrongUnique(s)
  {
    hide IsStrong;
    forall kind, value, d, e |
      IsStrong(kind, value) && Identity(d, kind, value) in s.identities && Identity(e, kind, value) in s.identities
      ensures d == e
    {
      assert Identity(d, kind, value) in s.identities.Keys && Identity(e, kind, value) in s.identities.Keys;
    }
  }

  /**
   * Over every run from empty tables: the strong identifiers are unique at the end if and only
   * if no call along the way conflicted.
   */
  lemma {:induction false} UniqueIffNoConflict(states: seq<Tables>, ops: seq<Op>)
    requires Run(states, ops)
    ensures StrongUnique(states[|ops|]) <==> forall i :: 0 <= i < |ops| ==> !Conflict(states[i], ops[i])
  {
    hide Step, Conflict, IsStrong;
    var n := |ops|;
    if n > 0 {
      var front, before := ops[..n - 1], states[..n];
      UniqueIffNoConflict(before, front);
      assert before[n - 1] == states[n - 1];
      if StrongUnique(states[n - 1]) {
        StepKeepsUniqueIff(states[n - 1], ops[n - 1], states[n]);
        assert forall i :: 0 <= i < n - 1 ==> !Conflict(before[i], front[i]);
      } else {
        var i :| 0 <= i < n - 1 && Conflict(before[i], front[i]);
        assert Conflict(states[i], ops[i]);
        StepKeepsIdentities(states[n - 1], ops[n - 1], states[n]);
        if StrongUnique(states[n]) {
          DuplicatesStay(states[n - 1], states[n]);
        }
      }
    }
  }

  // ---- runs of observations only --------------------------------------------------------

  ghost predicate ObservationsOnly(ops: seq<Op>) {
    forall i :: 0 <= i < |ops| ==> ops[i].Observe?
  }

  ghost predicate NoTokens(s: Tables) {
    forall token :: TokenHolders(s, token) == {}
  }

  lemma {:induction false} ObservationsIssueNoToken(states: seq<Tables>, ops: seq<Op>, i: nat)
    requires Run(states, ops) && ObservationsOnly(ops) && i <= |ops|
    ensures NoTokens(states[i])
  {
    if i > 0 {
      ObservationsIssueNoToken(states, ops, i - 1);
      assert Step(states[i - 1], ops[i - 1], states[i]);
      match ops[i - 1]
      case Observe(obs, pick, drawn, now) =>
        var s, s' := states[i - 1], states[i];
        var id :| Reconciled(s, obs, pick, drawn, now, s', id);
        hide Reconciled, TokenHolders;
        forall token
          ensures TokenHolders(s', token) == {}
        {
          TokensKept(s, obs, pick, drawn, now, s', id, token);
        }
    }
  }

  /** No agent_id is recorded on two devices. */
  ghost predicate AgentUnique(s: Tables) {
    forall value, d, e ::
      Identity(d, AgentKind, value) in s.identities && Identity(e, AgentKind, value) in s.identities ==> d == e
  }

  /** An agent_id already held decides the observation, when no device carries a token. */
  lemma AgentDecides(s: Tables, obs: Observation, pick: Lookup, drawn: DeviceId, now: Time, s': Tables, id: DeviceId,
                     d: DeviceId)
    requires NoTokens(s) && AgentUnique(s)
    requires Reconciled(s, obs, pick, drawn, now, s', id)
    requires obs.agentId != "" && Identity(d, AgentKind, obs.agentId) in s.identities
    ensures id == d
  {
    hide Confident, Flagged, Merged, Created, Sighted;
    HoldersIff(s, AgentKind, obs.agentId, d);
    HoldersIff(s, AgentKind, obs.agentId, id);
    assert TokenHolders(s, obs.agentToken) == {};
  }

  /** However the other signals mislead, observations alone never put one agent_id on two devices. */
  lemma {:induction false} AgentIdsStayUnique(states: seq<Tables>, ops: seq<Op>, i: nat)
    requires Run(states, ops) && ObservationsOnly(ops) && i <= |ops|
    ensures AgentUnique(states[i])
  {
    if i > 0 {
      AgentIdsStayUnique(states, ops, i - 1);
      ObservationsIssueNoToken(states, ops, i - 1);
      assert Step(states[i - 1], ops[i - 1], states[i]);
      match ops[i - 1]
      case Observe(obs, pick, drawn, now) =>
        var id :| Reconciled(states[i - 1], obs, pick, drawn, now, states[i], id);
        AgentUniqueStep(states[i - 1], obs, pick, drawn, now, states[i], id);
    }
  }

  lemma AgentUniqueStep(s: Tables, obs: Observation, pick: Lookup, drawn: DeviceId, now: Time, s': Tables, id: DeviceId)
    requires NoTokens(s) && AgentUnique(s)
    requires Reconciled(s, obs, pick, drawn, now, s', id)
    ensures AgentUnique(s')
  {
    hide Reconciled, NoTokens, AgentUnique;
    ObserveWrites(s, obs, pick, drawn, now, s', id);
    AgentUniqueAfter(s, s', obs, id) by {
      forall d | obs.agentId != "" && Identity(d, AgentKind, obs.agentId) in s.identities
        ensures id == d
      {
        AgentDecides(s, obs, pick, drawn, now, s', id, d);
      }
    }
  }

  lemma AgentUniqueAfter(s: Tables, s': Tables, obs: Observation, id: DeviceId)
    requires AgentUnique(s) && WritesOnly(s, s', id, (kind, value) => Gives(obs, kind, value))
    requires forall d :: obs.agentId != "" && Identity(d, AgentKind, obs.agentId) in s.identities ==> id == d
    ensures AgentUnique(s')
  {
  }

  ghost predicate NoAgentIds(ops: seq<Op>) {
    forall i :: 0 <= i < |ops| ==> ops[i].Observe? && ops[i].obs.agentId == ""
  }

  /** With observations that carry no agent_id either, no call ever conflicts. */
  lemma AnonymousRunsDoNotConflict(states: seq<Tables>, ops: seq<Op>, i: nat)
    requires Run(states, ops) && NoAgentIds(ops) && i < |ops|
    requires StrongUnique(states[i])
    ensures !Conflict(states[i], ops[i])
  {
    hide Step;
    ObservationsIssueNoToken(states, ops, i);
    var s := states[i];
    match ops[i]
    case Observe(obs, pick, drawn, now) =>
      assert TokenHolders(s, obs.agentToken) == {};
      if StrongMatch(s, obs, pick).Some? {
        var d := StrongMatch(s, obs, pick).value;
        HoldersIff(s, MacKind, obs.mac, d);
        assert IsStrong(MacKind, obs.mac);
      }
  }

  lemma {:induction false} AnonymousRunsStayUnique(states: seq<Tables>, ops: seq<Op>, i: nat)
    requires Run(states, ops) && NoAgentIds(ops) && i <= |ops|
    ensures StrongUnique(states[i])
  {
    hide Step, Conflict, IsStrong;
    if i > 0 {
      AnonymousRunsStayUnique(states, ops, i - 1);
      AnonymousRunsDoNotConflict(states, ops, i - 1);
      StepKeepsUniqueIff(states[i - 1], ops[i - 1], states[i]);
    }
  }

  /**
   * The owner of a universal MAC is the owner for good: it stays the only holder, and every
   * later observation carrying the MAC is bound to it.
   */
  lemma UniversalMacIsSticky(states: seq<Tables>, ops: seq<Op>, i: nat, j: nat, mac: string, owner: DeviceId,
                             id: DeviceId)
    requires Run(states, ops) && NoAgentIds(ops) && i <= j < |ops|
    requires mac != "" && !Mac.IsRandomizedMAC(mac)
    requires Identity(owner, MacKind, mac) in states[i].identities
    requires ops[j].obs.mac == mac
    requires Reconciled(states[j], ops[j].obs, ops[j].pick, ops[j].drawn, ops[j].now, states[j + 1], id)
    ensures id == owner && Holders(states[j + 1], MacKind, mac) == {owner}
  {
    var s, s', obs, pick := states[j], states[j + 1], ops[j].obs, ops[j].pick;
    IdentitiesGrow(states, ops, i, j);
    assert Identity(owner, MacKind, mac) in states[i].identities.Keys;
    AnonymousRunsStayUnique(states, ops, j);
    ObservationsIssueNoToken(states, ops, j);
    ReconciledRows(s, obs, pick, ops[j].drawn, ops[j].now, s', id);
    OwnerDecides(s, obs, pick, ops[j].drawn, ops[j].now, s', id, owner);
    HoldersAfter(s, s', obs, id, SeenAt(obs, ops[j].now), MacKind, mac);
    SoleHolder(s, mac, owner);
  }

  lemma SoleHolder(s: Tables, mac: string, owner: DeviceId)
    requires StrongUnique(s) && !Mac.IsRandomizedMAC(mac)
    requires Identity(owner, MacKind, mac) in s.identities
    ensures Holders(s, MacKind, mac) == {owner}
  {
    assert IsStrong(MacKind, mac);
    hide IsStrong, Holders;
    forall d
      ensures d in Holders(s, MacKind, mac) <==> d == owner
    {
      HoldersIff(s, MacKind, mac, d);
    }
  }

  lemma OwnerDecides(s: Tables, obs: Observation, pick: Lookup, drawn: DeviceId, now: Time, s': Tables, id: DeviceId,
                     owner: DeviceId)
    requires StrongUnique(s) && NoTokens(s) && obs.agentId == "" && HasUniversalMac(obs)
    requires Identity(owner, MacKind, obs.mac) in s.identities
    requires Reconciled(s, obs, pick, drawn, now, s', id)
    ensures id == owner
  {
    hide Confident, Flagged, Merged, Created, Sighted, StrongUnique, Holders, TokenHolders;
    SoleHolder(s, obs.mac, owner);
    assert TokenHolders(s, obs.agentToken) == {};
  }

  // ---- where uniqueness fails -----------------------------------------------------------

  function Sighting(source: string, agentId: string, mac: string): Observation {
    Observation(source, 1, "", agentId, mac, "", "", [], "", "")
  }

  lemma FirstSighting(s: Tables, obs: Observation, pick: Lookup, drawn: DeviceId)
    requires obs.agentToken == "" && obs.ip == "" && obs.hostname == "" && obs.seenAt == 1
    requires obs.agentId == "" || Holders(s, AgentKind, obs.agentId) == {}
    requires obs.mac == "" || (!Mac.IsRandomizedMAC(obs.mac) && Holders(s, MacKind, obs.mac) == {})
    ensures Reconciled(s, obs, pick, drawn, 1, Created(s, drawn, obs, StampOf(obs, 1)), drawn)
  {
    hide Sighted, Holders;
    NoneConfident(s, obs);
  }

  function ScannedOnly(mac: string): Tables {
    var obs := Sighting("scan", "", mac);
    Created(EMPTY_TABLES, "A", obs, StampOf(obs, 1))
  }

  function ThenCheckedIn(mac: string): Tables {
    var obs := Sighting("agent", "a", "");
    Created(ScannedOnly(mac), "B", obs, StampOf(obs, 1))
  }

  function ThenReported(mac: string): Tables {
    var obs := Sighting("agent", "a", mac);
    Merged(ThenCheckedIn(mac), "B", obs, StampOf(obs, 1))
  }

  lemma TwoDevices(mac: string, pick: Lookup)
    requires mac != "" && !Mac.IsRandomizedMAC(mac)
    ensures Reconciled(EMPTY_TABLES, Sighting("scan", "", mac), pick, "A", 1, ScannedOnly(mac), "A")
    ensures Reconciled(ScannedOnly(mac), Sighting("agent", "a", ""), pick, "B", 1, ThenCheckedIn(mac), "B")
    ensures "A" !in EMPTY_TABLES.devices && "B" !in ScannedOnly(mac).devices
  {
    hide Reconciled;
    assert Holders(EMPTY_TABLES, MacKind, mac) == {};
    FirstSighting(EMPTY_TABLES, Sighting("scan", "", mac), pick, "A");
    assert Holders(ScannedOnly(mac), AgentKind, "a") == {};
    FirstSighting(ScannedOnly(mac), Sighting("agent", "a", ""), pick, "B");
  }

  lemma AgentWins(mac: string, pick: Lookup)
    requires mac != ""
    ensures Reconciled(ThenCheckedIn(mac), Sighting("agent", "a", mac), pick, "C", 1, ThenReported(mac), "B")
    ensures "C" !in ThenCheckedIn(mac).devices
  {
    var s := ThenCheckedIn(mac);
    forall d
      ensures Identity(d, AgentKind, "a") in s.identities <==> d == "B"
    {
    }
    assert Holders(s, AgentKind, "a") == {"B"} by {
      HoldersIff(s, AgentKind, "a", "B");
    }
    hide Confident, ThenCheckedIn, ThenReported, Sighted;
    assert StrongMatch(s, Sighting("agent", "a", mac), pick) == Some("B");
  }

  lemma MacOnBoth(mac: string)
    requires mac != ""
    ensures Identity("A", MacKind, mac) in ThenReported(mac).identities
    ensures Identity("B", MacKind, mac) in ThenReported(mac).identities
  {
  }

  lemma SomeUniversalMac() returns (mac: string)
    ensures mac != "" && !Mac.IsRandomizedMAC(mac)
  {
    var o: Mac.Octets := [0, 1, 2, 3, 4, 5];
    mac := Mac.PrintMac(o);
    hide *;
    Mac.RandomizedPrinted(o);
  }

  lemma ObservedStep(s: Tables, obs: Observation, pick: Lookup, drawn: DeviceId, now: Time, s': Tables, id: DeviceId)
    requires drawn !in s.devices && Reconciled(s, obs, pick, drawn, now, s', id)
    ensures Step(s, Observe(obs, pick, drawn, now), s')
  {
    hide Reconciled;
  }

  lemma ThreeSteps(a: Op, b: Op, c: Op, s1: Tables, s2: Tables, s3: Tables)
    requires Step(EMPTY_TABLES, a, s1) && Step(s1, b, s2) && Step(s2, c, s3)
    ensures Run([EMPTY_TABLES, s1, s2, s3], [a, b, c])
  {
    hide Step;
  }

  lemma SharedMac(s: Tables, mac: string, d: DeviceId, e: DeviceId)
    requires d != e && !Mac.IsRandomizedMAC(mac)
    requires Identity(d, MacKind, mac) in s.identities && Identity(e, MacKind, mac) in s.identities
    ensures !StrongUnique(s)
  {
    hide Mac.IsRandomizedMAC;
    assert IsStrong(MacKind, mac);
  }

  /**
   * Three observations are enough: the scanner meets a universal MAC, an agent checks in
   * without one, and then the same agent reports that MAC. The agent_id decides, so the MAC
   * ends up on both devices.
   */
  lemma AgentCarriesForeignMac(pick: Lookup) returns (states: seq<Tables>, ops: seq<Op>)
    ensures Run(states, ops) && ObservationsOnly(ops) && |ops| == 3
    ensures !StrongUnique(states[3])
  {
    hide *;
    var mac := SomeUniversalMac();
    var o1, o2, o3 := Sighting("scan", "", mac), Sighting("agent", "a", ""), Sighting("agent", "a", mac);
    var s1, s2, s3 := ScannedOnly(mac), ThenCheckedIn(mac), ThenReported(mac);
    TwoDevices(mac, pick);
    AgentWins(mac, pick);
    ObservedStep(EMPTY_TABLES, o1, pick, "A", 1, s1, "A");
    ObservedStep(s1, o2, pick, "B", 1, s2, "B");
    ObservedStep(s2, o3, pick, "C", 1, s3, "B");
    var a, b, c := Observe(o1, pick, "A", 1), Observe(o2, pick, "B", 1), Observe(o3, pick, "C", 1);
    ThreeSteps(a, b, c, s1, s2, s3);
    states, ops := [EMPTY_TABLES, s1, s2, s3], [a, b, c];
    ThreeObservations(a, b, c);
    MacOnBoth(mac);
    assert "A"[0] != "B"[0];
    SharedMac(s3, mac, "A", "B");
  }

  lemma ThreeObservations(a: Op, b: Op, c: Op)
    requires a.Observe? && b.Observe? && c.Observe?
    ensures ObservationsOnly([a, b, c])
  {
  }
}
