/** What weak matching decides, and what happens when the same observation arrives twice. */
module RegistryReplay {
  import opened Prelude
  import opened Registry
  import Mac

  // ---- the tables after one Reconcile ---------------------------------------------------

  /** The observation carries this identity. */
  predicate Gives(obs: Observation, kind: IdentityKind, value: string) {
    value != "" && match kind
                   case AgentKind => value == obs.agentId
                   case MacKind => value == obs.mac
                   case IpKind => value == obs.ip
                   case HostnameKind => value == obs.hostname
                   case OtherKind(_) => false
  }

  /** Exactly the observation's own identities are recorded, on device d, and stamped. */
  lemma SightedRows(rows: map<Identity, Time>, d: DeviceId, obs: Observation, seen: Time)
    ensures var after := Sighted(rows, d, obs, seen);
      forall r :: (r in after <==> r in rows || (r.device == d && Gives(obs, r.kind, r.value)))
                  && (r in after ==> after[r] == if r.device == d && Gives(obs, r.kind, r.value) then seen else rows[r])
  {
  }

  /** One Reconcile adds the observation's rows on the device it returned, and no other identity. */
  lemma ReconciledRows(s: Tables, obs: Observation, pick: Lookup, drawn: DeviceId, now: Time, s': Tables, id: DeviceId)
    requires Reconciled(s, obs, pick, drawn, now, s', id)
    ensures s'.identities == Sighted(s.identities, id, obs, SeenAt(obs, now))
    ensures s'.caps == s.caps + ReportedCaps(id, obs)
  {
    hide Holders, TokenHolders, Confident, StrongMatch, Sighted, ReportedCaps, Flagged;
  }

  lemma HoldersAfter(s: Tables, s': Tables, obs: Observation, id: DeviceId, seen: Time, kind: IdentityKind,
                     value: string)
    requires s'.identities == Sighted(s.identities, id, obs, seen)
    ensures Holders(s', kind, value) == Holders(s, kind, value) + if Gives(obs, kind, value) then {id} else {}
  {
    SightedRows(s.identities, id, obs, seen);
    hide Sighted, Gives;
    forall d
      ensures d in Holders(s', kind, value) <==> d in Holders(s, kind, value) || (d == id && Gives(obs, kind, value))
    {
      HoldersIff(s, kind, value, d);
      HoldersIff(s', kind, value, d);
    }
  }

  /** Reconcile never issues, moves or clears an agent token. */
  lemma TokensKept(s: Tables, obs: Observation, pick: Lookup, drawn: DeviceId, now: Time, s': Tables, id: DeviceId,
                   token: string)
    requires Reconciled(s, obs, pick, drawn, now, s', id) && drawn !in s.devices
    ensures TokenHolders(s', token) == TokenHolders(s, token)
  {
    hide Holders, Confident, StrongMatch, Sighted, ReportedCaps, Flagged;
  }

  lemma HitsAfter(s: Tables, s': Tables, obs: Observation, id: DeviceId, seen: Time, d: DeviceId)
    requires s'.identities == Sighted(s.identities, id, obs, seen)
    ensures WeakHits(s', obs, d) == if d == id then WeakSignals(obs) else WeakHits(s, obs, d)
  {
    SightedRows(s.identities, id, obs, seen);
    hide Sighted;
  }

  // ---- one Reconcile, row by row --------------------------------------------------------

  /** The row of a device that one Reconcile has just made for an observation. */
  ghost predicate FreshRow(row: Device, obs: Observation, now: Time) {
    && row.person == None && row.token == None
    && row.lastSeen == Some(if obs.seenAt == ZERO_TIME then now else obs.seenAt)
    && row.updatedAt == WholeSecond(now)
    && (obs.source == "scan" ==> row.state == "discovered")
    && (obs.source != "scan" ==> row.state == "active")
    && (obs.kind != "" ==> row.kind == obs.kind)
    && (obs.kind == "" ==> row.kind == "unknown")
    && (obs.title != "" ==> row.title == obs.title)
    && (obs.title == "" && obs.hostname != "" ==> row.title == obs.hostname)
    && (obs.title == "" && obs.hostname == "" && obs.agentId != "" ==> row.title == "agent:" + obs.agentId)
    && (obs.title == "" && obs.hostname == "" && obs.agentId == "" && obs.mac != "" ==>
          row.title == "mac:" + obs.mac)
    && (obs.title == "" && obs.hostname == "" && obs.agentId == "" && obs.mac == "" ==>
          row.title == "unknown device")
  }

  /** The row of a known device after one Reconcile has bound an observation to it. */
  ghost predicate SeenRow(was: Device, row: Device, obs: Observation, now: Time) {
    && row.person == was.person && row.title == was.title && row.kind == was.kind
    && row.token == was.token && row.state == was.state
    && row.lastSeen == Some(if obs.seenAt == ZERO_TIME then now else obs.seenAt)
    && row.updatedAt == WholeSecond(now)
  }

  /**
   * What one Reconcile does to the devices table: the answer's row is new and filled in from the
   * observation, or was there and has only been seen again; every other row is as it was.
   */
  lemma ReconciledDevices(s: Tables, obs: Observation, pick: Lookup, drawn: DeviceId, now: Time, s': Tables,
                          id: DeviceId)
    requires WellFormed(s) && drawn !in s.devices
    requires Reconciled(s, obs, pick, drawn, now, s', id)
    ensures id in s'.devices
    ensures id !in s.devices ==> id == drawn && FreshRow(s'.devices[id], obs, now)
    ensures id in s.devices ==> SeenRow(s.devices[id], s'.devices[id], obs, now)
    ensures forall d :: d != id ==> (d in s'.devices <==> d in s.devices)
    ensures forall d :: d != id && d in s.devices ==> s'.devices[d] == s.devices[d]
  {
    hide Holders, TokenHolders, Confident, StrongMatch, Sighted, ReportedCaps, Flagged, WellFormed, WholeSecond;
    StrongMatchExists(s, obs, pick);
    ConfidentExist(s, obs);
  }

  /**
   * What it does to identities and capabilities: all that is given is recorded on the answer and
   * stamped, capabilities from agents only.
   */
  lemma ReconciledRecords(s: Tables, obs: Observation, pick: Lookup, drawn: DeviceId, now: Time, s': Tables,
                          id: DeviceId)
    requires Reconciled(s, obs, pick, drawn, now, s', id)
    ensures forall r ::
      r in s'.identities <==> r in s.identities ||
                              (r.device == id && r.value != "" &&
                               r in {Identity(id, AgentKind, obs.agentId), Identity(id, MacKind, obs.mac),
                                     Identity(id, IpKind, obs.ip), Identity(id, HostnameKind, obs.hostname)})
    ensures forall c ::
      c in s'.caps <==> c in s.caps || (obs.source == "agent" && c.device == id && c.cap in obs.caps)
    ensures forall r :: r in s'.identities && r.device == id && Gives(obs, r.kind, r.value) ==>
      s'.identities[r] == if obs.seenAt == ZERO_TIME then now else obs.seenAt
    ensures forall r :: r in s.identities && !(r.device == id && Gives(obs, r.kind, r.value)) ==>
      r in s'.identities && s'.identities[r] == s.identities[r]
  {
    ReconciledRows(s, obs, pick, drawn, now, s', id);
    SightedRows(s.identities, id, obs, SeenAt(obs, now));
    hide Reconciled, Sighted;
  }

  /** Two of the three weak signals, an address, a hostname and a randomized MAC, are recorded on d. */
  ghost predicate TwoWeak(s: Tables, obs: Observation, d: DeviceId) {
    var ip := obs.ip != "" && Identity(d, IpKind, obs.ip) in s.identities;
    var host := obs.hostname != "" && Identity(d, HostnameKind, obs.hostname) in s.identities;
    var mac := obs.mac != "" && Mac.IsRandomizedMAC(obs.mac) && Identity(d, MacKind, obs.mac) in s.identities;
    (ip && host) || (ip && mac) || (host && mac)
  }

  /** Whether some device was issued the token, and whether an identity is recorded on some device. */
  ghost predicate Issued(s: Tables, token: string) {
    exists d :: d in s.devices && s.devices[d].token == Some(token)
  }

  ghost predicate Recorded(s: Tables, kind: IdentityKind, value: string) {
    exists d :: Identity(d, kind, value) in s.identities
  }

  /**
   * Which device the answer is. A token that was issued decides; else an agent_id that is recorded; else
   * a universal MAC that is; else the one device two weak signals point to; else it is a new one.
   */
  lemma ReconciledAnswer(s: Tables, obs: Observation, pick: Lookup, drawn: DeviceId, now: Time, s': Tables,
                         id: DeviceId)
    requires Reconciled(s, obs, pick, drawn, now, s', id)
    ensures
      var byToken := obs.agentToken != "" && Issued(s, obs.agentToken);
      var byAgent := obs.agentId != "" && Recorded(s, AgentKind, obs.agentId);
      var byMac := obs.mac != "" && !Mac.IsRandomizedMAC(obs.mac) && Recorded(s, MacKind, obs.mac);
      if byToken then id in s.devices && s.devices[id].token == Some(obs.agentToken)
      else if byAgent then Identity(id, AgentKind, obs.agentId) in s.identities
      else if byMac then Identity(id, MacKind, obs.mac) in s.identities
      else if exists d :: TwoWeak(s, obs, d) && forall e :: TwoWeak(s, obs, e) ==> e == d then TwoWeak(s, obs, id)
      else id == drawn
  {
    StrongSignals(s, obs, pick);
    hide StrongMatch, Confident, TwoWeak, Issued, Recorded, Merged, Created, Flagged, Mac.IsRandomizedMAC;
    if StrongMatch(s, obs, pick).None? {
      SoleTwoWeak(s, obs, id);
    }
  }

  /** What the first three layers select, and when. */
  lemma StrongSignals(s: Tables, obs: Observation, pick: Lookup)
    ensures
      var strong := StrongMatch(s, obs, pick);
      if obs.agentToken != "" && Issued(s, obs.agentToken) then
        strong.Some? && strong.value in s.devices && s.devices[strong.value].token == Some(obs.agentToken)
      else if obs.agentId != "" && Recorded(s, AgentKind, obs.agentId) then
        strong.Some? && Identity(strong.value, AgentKind, obs.agentId) in s.identities
      else if obs.mac != "" && !Mac.IsRandomizedMAC(obs.mac) && Recorded(s, MacKind, obs.mac) then
        strong.Some? && Identity(strong.value, MacKind, obs.mac) in s.identities
      else strong.None?
  {
    IssuedIff(s, obs.agentToken);
    HoldersNonEmpty(s, AgentKind, obs.agentId);
    HoldersNonEmpty(s, MacKind, obs.mac);
    hide Holders, Issued, Recorded, Mac.IsRandomizedMAC;
  }

  /** What the fourth layer selects. */
  lemma SoleTwoWeak(s: Tables, obs: Observation, id: DeviceId)
    ensures |Confident(s, obs)| == 1 <==> exists d :: TwoWeak(s, obs, d) && forall e :: TwoWeak(s, obs, e) ==> e == d
    ensures id in Confident(s, obs) <==> TwoWeak(s, obs, id)
  {
    forall d
      ensures d in Confident(s, obs) <==> TwoWeak(s, obs, d)
    {
      TwoWeakIff(s, obs, d);
    }
    hide Confident, TwoWeak;
    if |Confident(s, obs)| == 1 {
      var d :| d in Confident(s, obs);
      SingletonSize(Confident(s, obs), d);
      assert TwoWeak(s, obs, d) && forall e :: TwoWeak(s, obs, e) ==> e == d;
    }
    if d :| TwoWeak(s, obs, d) && forall e :: TwoWeak(s, obs, e) ==> e == d {
      assert Confident(s, obs) == {d};
    }
  }

  lemma HoldersNonEmpty(s: Tables, kind: IdentityKind, value: string)
    ensures Recorded(s, kind, value) <==> Holders(s, kind, value) != {}
    ensures forall d :: d in Holders(s, kind, value) <==> Identity(d, kind, value) in s.identities
  {
    forall d
      ensures d in Holders(s, kind, value) <==> Identity(d, kind, value) in s.identities
    {
      HoldersIff(s, kind, value, d);
    }
    hide Holders;
    if Holders(s, kind, value) != {} {
      var d :| d in Holders(s, kind, value);
      assert Identity(d, kind, value) in s.identities;
    }
  }

  lemma IssuedIff(s: Tables, token: string)
    ensures Issued(s, token) <==> TokenHolders(s, token) != {}
  {
    if d :| d in s.devices && s.devices[d].token == Some(token) {
      assert d in TokenHolders(s, token);
    }
  }

  lemma TwoWeakIff(s: Tables, obs: Observation, d: DeviceId)
    ensures d in Confident(s, obs) <==> TwoWeak(s, obs, d)
  {
    ConfidentIff(s, obs, d);
  }

  // ---- the weak layer -------------------------------------------------------------------

  /** d is the only device that at least two of the observation's weak signals point to. */
  ghost predicate SoleCorroborated(s: Tables, obs: Observation, d: DeviceId) {
    && WeakHits(s, obs, d) >= 2
    && forall e :: WeakHits(s, obs, e) >= 2 ==> e == d
  }

  lemma SoleIffSingleton(s: Tables, obs: Observation, d: DeviceId)
    ensures SoleCorroborated(s, obs, d) <==> Confident(s, obs) == {d}
  {
    ConfidentIff(s, obs, d);
    forall e
      ensures e in Confident(s, obs) <==> WeakHits(s, obs, e) >= 2
    {
      ConfidentIff(s, obs, e);
    }
  }

  /**
   * With no strong match, an observation is bound to an existing device exactly when that
   * device alone is corroborated by two weak signals.
   */
  lemma WeakMatchingIsASetRule(s: Tables, obs: Observation, pick: Lookup, drawn: DeviceId, now: Time, s': Tables,
                               id: DeviceId)
    requires WellFormed(s) && drawn !in s.devices
    requires StrongMatch(s, obs, pick).None?
    requires Reconciled(s, obs, pick, drawn, now, s', id)
    ensures id in s.devices <==> SoleCorroborated(s, obs, id)
    ensures forall d :: SoleCorroborated(s, obs, d) ==> id == d
  {
    hide Holders, TokenHolders, Confident, WeakHits, StrongMatch, Sighted, ReportedCaps, Flagged, SoleCorroborated,
         WellFormed;
    var ds := Confident(s, obs);
    ConfidentExist(s, obs);
    SoleIffSingleton(s, obs, id);
    forall d | SoleCorroborated(s, obs, d)
      ensures id == d
    {
      SoleIffSingleton(s, obs, d);
      assert d in ds && |ds| == 1;
    }
    if |ds| == 1 {
      SingletonSize(ds, id);
    }
  }

  /**
   * When no existing device is bound, one device is added, and it is flagged with exactly the
   * corroborated devices if there are two or more; otherwise nothing is flagged.
   */
  lemma UnmatchedIsCreatedAndFlagged(s: Tables, obs: Observation, pick: Lookup, drawn: DeviceId, now: Time,
                                     s': Tables, id: DeviceId)
    requires WellFormed(s) && drawn !in s.devices
    requires Reconciled(s, obs, pick, drawn, now, s', id)
    ensures s'.devices.Keys == s.devices.Keys + {id}
    ensures Flagged(s.pending, s'.pending, id, if id in s.devices then {} else Confident(s, obs))
  {
    hide Holders, TokenHolders, Confident, WeakHits, StrongMatch, Merged, Created, Flagged, WellFormed;
    ConfidentExist(s, obs);
    StrongMatchExists(s, obs, pick);
    NothingFlagged(s.pending, id);
    if StrongMatch(s, obs, pick).Some? || |Confident(s, obs)| == 1 {
      MergedKeepsWellFormed(s, id, obs, StampOf(obs, now));
      MergedFlagsNothing(s, id, obs, StampOf(obs, now));
    } else {
      CreatedDevices(s, drawn, obs, StampOf(obs, now));
    }
  }

  lemma NothingFlagged(pending: seq<PendingMerge>, source: DeviceId)
    ensures Flagged(pending, pending, source, {})
  {
  }

  lemma MergedFlagsNothing(s: Tables, d: DeviceId, obs: Observation, stamp: Stamp)
    ensures Merged(s, d, obs, stamp).pending == s.pending
  {
  }

  lemma CreatedDevices(s: Tables, drawn: DeviceId, obs: Observation, stamp: Stamp)
    ensures Created(s, drawn, obs, stamp).devices.Keys == s.devices.Keys + {drawn}
  {
    hide Sighted, ReportedCaps, NewDevice;
  }

  /** Map iteration order shows only in the order of the candidates of the row just flagged. */
  lemma OutcomeIgnoresMapOrder(s: Tables, obs: Observation, pick: Lookup, drawn: DeviceId, now: Time,
                               a: Tables, idA: DeviceId, b: Tables, idB: DeviceId)
    requires Reconciled(s, obs, pick, drawn, now, a, idA)
    requires Reconciled(s, obs, pick, drawn, now, b, idB)
    ensures idA == idB && a.(pending := b.pending) == b
    ensures |a.pending| == |b.pending|
    ensures forall i :: 0 <= i < |a.pending| ==>
      a.pending[i].source == b.pending[i].source
        && multiset(a.pending[i].candidates) == multiset(b.pending[i].candidates)
  {
    hide Holders, TokenHolders, Confident, WeakHits, StrongMatch, Sighted, ReportedCaps;
    var ds := Confident(s, obs);
    if StrongMatch(s, obs, pick).None? && |ds| == 1 {
      SingletonSize(ds, idA);
    }
    if a.pending != s.pending {
      var n := |s.pending|;
      ListingsAgree(a.pending[n].candidates, b.pending[n].candidates, ds);
    }
  }

  lemma {:induction false} ListingsAgree(xs: seq<DeviceId>, ys: seq<DeviceId>, ds: set<DeviceId>)
    requires Lists(xs, ds) && Lists(ys, ds)
    ensures multiset(xs) == multiset(ys)
  {
    ListingBag(xs, ds);
    ListingBag(ys, ds);
  }

  lemma {:induction false} ListingBag(xs: seq<DeviceId>, ds: set<DeviceId>)
    requires Lists(xs, ds)
    ensures multiset(xs) == multiset(ds)
  {
    if xs == [] {
      assert ds == {};
    } else {
      var front, last := xs[..|xs| - 1], xs[|xs| - 1];
      assert xs == front + [last];
      ListingBag(front, ds - {last});
      assert ds == (ds - {last}) + {last};
    }
  }

  // ---- replay ---------------------------------------------------------------------------

  predicate HasStrongSignal(s: Tables, obs: Observation) {
    || (obs.agentToken != "" && TokenHolders(s, obs.agentToken) != {})
    || obs.agentId != ""
    || HasUniversalMac(obs)
  }

  /** Whether a second identical observation will be recognised, read off before the first. */
  predicate Recognisable(s: Tables, obs: Observation) {
    HasStrongSignal(s, obs) || (WeakSignals(obs) >= 2 && |Confident(s, obs)| <= 1)
  }

  lemma NoSignalNoMatch(s: Tables, obs: Observation, pick: Lookup)
    ensures !HasStrongSignal(s, obs) ==> StrongMatch(s, obs, pick).None?
  {
  }

  lemma StrongAnswer(s: Tables, obs: Observation, pick: Lookup, drawn: DeviceId, now: Time, s': Tables, id: DeviceId)
    requires Reconciled(s, obs, pick, drawn, now, s', id)
    ensures StrongMatch(s, obs, pick).Some? ==> StrongMatch(s, obs, pick) == Some(id)
  {
    hide StrongMatch, Confident, Merged, Created, Flagged;
  }

  lemma StrongReplay(s: Tables, obs: Observation, pick: Lookup, drawn: DeviceId, now: Time, s': Tables, id: DeviceId)
    requires drawn !in s.devices
    requires Reconciled(s, obs, pick, drawn, now, s', id)
    ensures StrongMatch(s', obs, pick) == if HasStrongSignal(s, obs) then Some(id) else None
  {
    hide Holders, TokenHolders, Sighted, ReportedCaps, Reconciled, SeenAt, HasUniversalMac;
    StrongAnswer(s, obs, pick, drawn, now, s', id);
    ReconciledRows(s, obs, pick, drawn, now, s', id);
    TokensKept(s, obs, pick, drawn, now, s', id, obs.agentToken);
    if obs.agentToken != "" && TokenHolders(s, obs.agentToken) != {} {
    } else if obs.agentId != "" {
      HoldersAfter(s, s', obs, id, SeenAt(obs, now), AgentKind, obs.agentId);
      var was := Holders(s, AgentKind, obs.agentId);
      assert Holders(s', AgentKind, obs.agentId) == if was == {} then {id} else was;
    } else if HasUniversalMac(obs) {
      UniversalIsGiven(obs);
      HoldersAfter(s, s', obs, id, SeenAt(obs, now), MacKind, obs.mac);
      var was := Holders(s, MacKind, obs.mac);
      assert Holders(s', MacKind, obs.mac) == if was == {} then {id} else was;
    }
  }

  lemma UniversalIsGiven(obs: Observation)
    requires HasUniversalMac(obs)
    ensures Gives(obs, MacKind, obs.mac)
  {
  }

  lemma WeakReplay(s: Tables, s': Tables, obs: Observation, id: DeviceId, seen: Time)
    requires s'.identities == Sighted(s.identities, id, obs, seen)
    ensures Confident(s', obs) == Confident(s, obs) + if WeakSignals(obs) >= 2 then {id} else {}
  {
    hide Confident, Sighted;
    forall d
      ensures d in Confident(s', obs) <==> d in Confident(s, obs) || (WeakSignals(obs) >= 2 && d == id)
    {
      ConfidentIff(s, obs, d);
      ConfidentIff(s', obs, d);
      HitsAfter(s, s', obs, id, seen, d);
    }
  }

  lemma NoneConfident(s: Tables, obs: Observation)
    requires WeakSignals(obs) < 2
    ensures Confident(s, obs) == {}
  {
    hide Confident;
    forall d
      ensures d !in Confident(s, obs)
    {
      ConfidentIff(s, obs, d);
    }
  }

  /** The next Reconcile of obs will be bound to the existing device d. */
  ghost predicate Binds(s: Tables, obs: Observation, pick: Lookup, d: DeviceId) {
    StrongMatch(s, obs, pick) == Some(d) || (StrongMatch(s, obs, pick).None? && Confident(s, obs) == {d})
  }

  /**
   * After one Reconcile, the same observation is bound to the device just returned if and only
   * if it was recognisable.
   */
  lemma ReplayBinding(s: Tables, obs: Observation, pick: Lookup, drawn: DeviceId, now: Time, s': Tables, id: DeviceId)
    requires WellFormed(s) && drawn !in s.devices
    requires Reconciled(s, obs, pick, drawn, now, s', id)
    ensures Binds(s', obs, pick, id) <==> Recognisable(s, obs)
  {
    if !Recognisable(s, obs) {
      NothingToRebind(s, obs, pick, drawn, now, s', id, id);
    } else {
      hide Holders, TokenHolders, Confident, StrongMatch, Sighted, ReportedCaps, Merged, Created, Flagged,
           WeakSignals, HasStrongSignal;
      StrongReplay(s, obs, pick, drawn, now, s', id);
      if !HasStrongSignal(s, obs) {
        NoSignalNoMatch(s, obs, pick);
        ReconciledRows(s, obs, pick, drawn, now, s', id);
        WeakReplay(s, s', obs, id, SeenAt(obs, now));
        if |Confident(s, obs)| == 1 {
          SingletonSize(Confident(s, obs), id);
        }
        assert Confident(s', obs) == {id};
      }
    }
  }

  /** An unrecognisable observation is bound to no device at all the second time. */
  lemma NothingToRebind(s: Tables, obs: Observation, pick: Lookup, drawn: DeviceId, now: Time, s': Tables,
                        id: DeviceId, d: DeviceId)
    requires drawn !in s.devices && !Recognisable(s, obs)
    requires Reconciled(s, obs, pick, drawn, now, s', id)
    ensures !Binds(s', obs, pick, d)
  {
    hide Holders, TokenHolders, Confident, StrongMatch, Sighted, ReportedCaps, Merged, Created, Flagged, WeakSignals,
         HasStrongSignal;
    StrongReplay(s, obs, pick, drawn, now, s', id);
    ReconciledRows(s, obs, pick, drawn, now, s', id);
    WeakReplay(s, s', obs, id, SeenAt(obs, now));
    var ds, ds' := Confident(s, obs), Confident(s', obs);
    if WeakSignals(obs) < 2 {
      NoneConfident(s, obs);
      assert d !in ds';
    } else {
      SubsetSize(ds, ds');
      assert |{d}| == 1;
    }
  }

  /** A Reconcile that binds to an existing device merges into it. */
  lemma BoundIsMerged(s: Tables, obs: Observation, pick: Lookup, drawn: DeviceId, now: Time, s': Tables, id: DeviceId,
                      d: DeviceId)
    requires Reconciled(s, obs, pick, drawn, now, s', id)
    requires Binds(s, obs, pick, d)
    ensures id == d && s' == Merged(s, d, obs, StampOf(obs, now))
  {
    hide Holders, TokenHolders, Confident, StrongMatch, Sighted, ReportedCaps, Flagged;
    if StrongMatch(s, obs, pick).None? {
      assert |{d}| == 1;
      assert id in Confident(s, obs);
    }
  }

  /** Any other Reconcile answers with the identifier it has just drawn. */
  lemma UnboundIsCreated(s: Tables, obs: Observation, pick: Lookup, drawn: DeviceId, now: Time, s': Tables,
                         id: DeviceId)
    requires Reconciled(s, obs, pick, drawn, now, s', id)
    requires !Binds(s, obs, pick, id)
    ensures id == drawn && s'.devices.Keys == s.devices.Keys + {id}
  {
    hide Holders, TokenHolders, Confident, StrongMatch, Sighted, ReportedCaps, Flagged;
    var ds := Confident(s, obs);
    if StrongMatch(s, obs, pick).None? && |ds| == 1 {
      SingletonSize(ds, id);
    }
  }

  /** Binding again to the same device writes nothing new but the times, and nothing at all iff they are the same. */
  lemma MergedTwice(s: Tables, s1: Tables, obs: Observation, id: DeviceId, first: Stamp, second: Stamp)
    requires id in s1.devices
    requires s1.devices[id].lastSeen == Some(first.seen) && s1.devices[id].updatedAt == first.second
    requires s1.identities == Sighted(s.identities, id, obs, first.seen)
    requires s1.caps == s.caps + ReportedCaps(id, obs)
    ensures var s2 := Merged(s1, id, obs, second);
      && s2.devices.Keys == s1.devices.Keys && s2.identities.Keys == s1.identities.Keys
      && s2.caps == s1.caps && s2.pending == s1.pending
      && (s2 == s1 <==> first == second)
  {
    SightedRows(s.identities, id, obs, first.seen);
    SightedRows(s1.identities, id, obs, second.seen);
    hide Sighted, Gives;
    var s2 := Merged(s1, id, obs, second);
    assert s2.caps == s1.caps;
    assert s2.devices[id].lastSeen == Some(second.seen) && s2.devices[id].updatedAt == second.second;
    if first == second {
      assert s2.identities == s1.identities;
      assert s2.devices == s1.devices;
    }
  }

  lemma StampSet(s: Tables, obs: Observation, pick: Lookup, drawn: DeviceId, now: Time, s': Tables, id: DeviceId)
    requires WellFormed(s)
    requires Reconciled(s, obs, pick, drawn, now, s', id)
    ensures id in s'.devices
    ensures s'.devices[id].lastSeen == Some(SeenAt(obs, now)) && s'.devices[id].updatedAt == WholeSecond(now)
  {
    hide Holders, TokenHolders, Confident, StrongMatch, Sighted, ReportedCaps, Flagged;
    StrongMatchExists(s, obs, pick);
    ConfidentExist(s, obs);
  }

  /** The tables hold the same devices, identities, capabilities and flagged merges. */
  predicate SameRows(a: Tables, b: Tables) {
    && a.devices.Keys == b.devices.Keys && a.identities.Keys == b.identities.Keys
    && a.caps == b.caps && a.pending == b.pending
  }

  /**
   * Replay, exactly: with row choice fixed, the second of two identical observations is bound
   * to the same device if and only if it is recognisable.
   */
  lemma Replay(s: Tables, obs: Observation, pick: Lookup,
               drawn1: DeviceId, now1: Time, s1: Tables, id1: DeviceId,
               drawn2: DeviceId, now2: Time, s2: Tables, id2: DeviceId)
    requires WellFormed(s) && drawn1 !in s.devices && drawn2 !in s1.devices
    requires Reconciled(s, obs, pick, drawn1, now1, s1, id1)
    requires Reconciled(s1, obs, pick, drawn2, now2, s2, id2)
    ensures id2 == id1 <==> Recognisable(s, obs)
  {
    hide Binds, Recognisable, Sighted, ReportedCaps, Reconciled, WellFormed;
    ReconciledKeepsWellFormed(s, obs, pick, drawn1, now1, s1, id1);
    ReplayBinding(s, obs, pick, drawn1, now1, s1, id1);
    if Recognisable(s, obs) {
      BoundIsMerged(s1, obs, pick, drawn2, now2, s2, id2, id1);
    } else {
      NothingToRebind(s, obs, pick, drawn1, now1, s1, id1, id2);
      UnboundIsCreated(s1, obs, pick, drawn2, now2, s2, id2);
    }
  }

  /**
   * A recognised replay adds no row. It changes nothing at all exactly when both calls write the
   * same times: both read the same time of sight and the same whole second.
   */
  lemma ReplayIsNoOp(s: Tables, obs: Observation, pick: Lookup,
                     drawn1: DeviceId, now1: Time, s1: Tables, id1: DeviceId,
                     drawn2: DeviceId, now2: Time, s2: Tables, id2: DeviceId)
    requires WellFormed(s) && drawn1 !in s.devices && drawn2 !in s1.devices
    requires Reconciled(s, obs, pick, drawn1, now1, s1, id1)
    requires Reconciled(s1, obs, pick, drawn2, now2, s2, id2)
    requires Recognisable(s, obs)
    ensures SameRows(s1, s2)
    ensures s2 == s1 <==> WholeSecond(now1) == WholeSecond(now2) && (now1 == now2 || obs.seenAt != ZERO_TIME)
  {
    hide Binds, Recognisable, Sighted, ReportedCaps, Reconciled, WellFormed, WholeSecond;
    StampSet(s, obs, pick, drawn1, now1, s1, id1);
    ReplayBinding(s, obs, pick, drawn1, now1, s1, id1);
    BoundIsMerged(s1, obs, pick, drawn2, now2, s2, id2, id1);
    ReconciledRows(s, obs, pick, drawn1, now1, s1, id1);
    MergedTwice(s, s1, obs, id1, StampOf(obs, now1), StampOf(obs, now2));
  }

  /** An unrecognised replay adds exactly one more device. */
  lemma UnrecognisedReplayDuplicates(s: Tables, obs: Observation, pick: Lookup,
                                     drawn1: DeviceId, now1: Time, s1: Tables, id1: DeviceId,
                                     drawn2: DeviceId, now2: Time, s2: Tables, id2: DeviceId)
    requires WellFormed(s) && drawn1 !in s.devices && drawn2 !in s1.devices
    requires Reconciled(s, obs, pick, drawn1, now1, s1, id1)
    requires Reconciled(s1, obs, pick, drawn2, now2, s2, id2)
    requires !Recognisable(s, obs)
    ensures s2.devices.Keys == s1.devices.Keys + {id2} && id2 !in s1.devices
  {
    hide Binds, Recognisable, Sighted, ReportedCaps, Reconciled, WellFormed;
    NothingToRebind(s, obs, pick, drawn1, now1, s1, id1, id2);
    UnboundIsCreated(s1, obs, pick, drawn2, now2, s2, id2);
  }

  /** The observation offers a universal MAC and nothing else. */
  predicate OnlyUniversalMac(obs: Observation) {
    obs.agentToken == "" && obs.agentId == "" && obs.ip == "" && obs.hostname == "" && HasUniversalMac(obs)
  }

  /**
   * The registry compares the text of MACs. After any observation a, one that offers nothing but a
   * universal MAC so far unknown is bound to a's device iff the two texts are equal, whether or not
   * they spell the same octets.
   */
  lemma SpellingDecides(s: Tables, a: Observation, b: Observation, pick: Lookup,
                        drawn1: DeviceId, now1: Time, s1: Tables, id1: DeviceId,
                        drawn2: DeviceId, now2: Time, s2: Tables, id2: DeviceId)
    requires WellFormed(s) && drawn1 !in s.devices && drawn2 !in s1.devices
    requires OnlyUniversalMac(b) && Holders(s, MacKind, b.mac) == {}
    requires Reconciled(s, a, pick, drawn1, now1, s1, id1)
    requires Reconciled(s1, b, pick, drawn2, now2, s2, id2)
    ensures id2 == id1 <==> a.mac == b.mac
  {
    hide Reconciled, WellFormed, Holders, Confident, Gives, HasUniversalMac, Sighted, StrongMatch, OnlyUniversalMac;
    ReconciledKeepsWellFormed(s, a, pick, drawn1, now1, s1, id1);
    ReconciledRows(s, a, pick, drawn1, now1, s1, id1);
    SpellingMatch(s, s1, a, b, pick, id1, SeenAt(a, now1));
    if a.mac == b.mac {
      StrongAnswer(s1, b, pick, drawn2, now2, s2, id2);
    } else {
      UnboundIsCreated(s1, b, pick, drawn2, now2, s2, id2);
    }
  }

  lemma SpellingMatch(s: Tables, s1: Tables, a: Observation, b: Observation, pick: Lookup, id: DeviceId, seen: Time)
    requires s1.identities == Sighted(s.identities, id, a, seen)
    requires OnlyUniversalMac(b) && Holders(s, MacKind, b.mac) == {}
    ensures StrongMatch(s1, b, pick) == if a.mac == b.mac then Some(id) else None
    ensures Confident(s1, b) == {}
  {
    OnlyMacSignals(b);
    HoldersAfter(s, s1, a, id, seen, MacKind, b.mac);
    NoneConfident(s1, b);
    OnlyMacMatch(s1, b, pick);
    assert Gives(a, MacKind, b.mac) <==> a.mac == b.mac;
    hide Holders, Confident, Gives, HasUniversalMac, Sighted, StrongMatch, OnlyUniversalMac;
    var rows := Holders(s1, MacKind, b.mac);
    assert rows == if a.mac == b.mac then {id} else {};
  }

  lemma OnlyMacSignals(b: Observation)
    requires OnlyUniversalMac(b)
    ensures WeakSignals(b) == 0 && b.mac != ""
  {
  }

  lemma OnlyMacMatch(s: Tables, b: Observation, pick: Lookup)
    requires OnlyUniversalMac(b)
    ensures var rows := Holders(s, MacKind, b.mac);
      StrongMatch(s, b, pick) == if rows == {} then None else Some(pick(ByIdentity(MacKind, b.mac), rows))
  {
    hide Holders, TokenHolders;
  }

  // ---- Upsert ---------------------------------------------------------------------------

  /** Position i is the last to list its identity, so its time is the one that stays. */
  predicate LastListed(given: seq<GivenIdentity>, i: int) {
    && 0 <= i < |given|
    && forall j :: i < j < |given| ==> given[j].kind != given[i].kind || given[j].value != given[i].value
  }

  /** Every identity carries its own time where it is listed last. */
  ghost predicate Dated(given: seq<GivenIdentity>) {
    forall i :: LastListed(given, i) ==> given[i].lastSeen.Some?
  }

  lemma {:induction false} GivenRowsKeys(d: DeviceId, given: seq<GivenIdentity>, now: Time)
    ensures forall r :: r in GivenRows(d, given, now) <==>
      exists g :: g in given && r == Identity(d, g.kind, g.value)
  {
    if given != [] {
      var front, g := given[..|given| - 1], given[|given| - 1];
      assert given == front + [g];
      GivenRowsKeys(d, front, now);
    }
  }

  lemma {:induction false} GivenRowAt(d: DeviceId, given: seq<GivenIdentity>, now: Time, i: nat)
    requires LastListed(given, i)
    ensures var r := Identity(d, given[i].kind, given[i].value);
      r in GivenRows(d, given, now) && GivenRows(d, given, now)[r] == GivenTime(given[i], now)
  {
    var n := |given| - 1;
    if i < n {
      assert given[..n][i] == given[i];
      GivenRowAt(d, given[..n], now, i);
    }
  }

  lemma {:induction false} LastListing(given: seq<GivenIdentity>, g: GivenIdentity) returns (i: nat)
    requires g in given
    ensures LastListed(given, i) && given[i].kind == g.kind && given[i].value == g.value
  {
    var front, last := given[..|given| - 1], given[|given| - 1];
    assert given == front + [last];
    if last.kind == g.kind && last.value == g.value {
      i := |given| - 1;
    } else {
      i := LastListing(front, g);
    }
  }

  /** The rows do not depend on the clock exactly when the clock did not move or was not read. */
  lemma GivenRowsEqualIff(d: DeviceId, given: seq<GivenIdentity>, now1: Time, now2: Time)
    ensures GivenRows(d, given, now1) == GivenRows(d, given, now2) <==> now1 == now2 || Dated(given)
    ensures GivenRows(d, given, now1).Keys == GivenRows(d, given, now2).Keys
  {
    var a, b := GivenRows(d, given, now1), GivenRows(d, given, now2);
    GivenRowsKeys(d, given, now1);
    GivenRowsKeys(d, given, now2);
    hide GivenRows;
    if a == b && now1 != now2 {
      forall i | LastListed(given, i)
        ensures given[i].lastSeen.Some?
      {
        GivenRowAt(d, given, now1, i);
        GivenRowAt(d, given, now2, i);
      }
    }
    if Dated(given) {
      forall r | r in a
        ensures a[r] == b[r]
      {
        var g :| g in given && r == Identity(d, g.kind, g.value);
        var i := LastListing(given, g);
        GivenRowAt(d, given, now1, i);
        GivenRowAt(d, given, now2, i);
      }
    }
  }

  /** Writing the same keys again leaves the rows alone exactly when the values are the same. */
  lemma RewrittenEqualIff(rows: map<Identity, Time>, a: map<Identity, Time>, b: map<Identity, Time>)
    requires a.Keys == b.Keys
    ensures (rows + a).Keys == (rows + a + b).Keys
    ensures rows + a + b == rows + a <==> a == b
  {
    if rows + a + b == rows + a {
      forall r | r in a
        ensures a[r] == b[r]
      {
        assert (rows + a + b)[r] == b[r] && (rows + a)[r] == a[r];
      }
    }
  }

  /**
   * Upsert leaves the rows it wrote as they are exactly when the caller names the device, both calls
   * fall into the same second, and, should the clock have moved within it, every identity carries
   * its own time where it is listed last. A named device never gains a row from the second call;
   * with an empty identifier each call inserts another device.
   */
  lemma UpsertIdempotent(s: Tables, id: DeviceId, row: Device, given: seq<GivenIdentity>, caps: seq<Capability>,
                         drawn1: DeviceId, now1: Time, drawn2: DeviceId, now2: Time)
    requires drawn1 !in s.devices && drawn1 != drawn2 && drawn2 !in s.devices
    ensures
      var s1 := Saved(s, if id == "" then drawn1 else id, row, given, caps, now1);
      var s2 := Saved(s1, if id == "" then drawn2 else id, row, given, caps, now2);
      && (s2 == s1 <==> id != "" && WholeSecond(now1) == WholeSecond(now2) && (now1 == now2 || Dated(given)))
      && (id != "" ==> SameRows(s1, s2) && (s2.devices == s1.devices <==> WholeSecond(now1) == WholeSecond(now2)))
      && (id == "" ==> s2.devices.Keys == s1.devices.Keys + {drawn2} && drawn2 !in s1.devices)
  {
    hide Dated, GivenRows, WholeSecond;
    var d1, d2 := if id == "" then drawn1 else id, if id == "" then drawn2 else id;
    var s1 := Saved(s, d1, row, given, caps, now1);
    var s2 := Saved(s1, d2, row, given, caps, now2);
    if id == "" {
      assert drawn2 in s2.devices && drawn2 !in s1.devices;
    } else {
      GivenRowsEqualIff(id, given, now1, now2);
      RewrittenEqualIff(s.identities, GivenRows(id, given, now1), GivenRows(id, given, now2));
      assert s2.caps == s1.caps;
      assert s1.devices[id].updatedAt == WholeSecond(now1) && s2.devices[id].updatedAt == WholeSecond(now2);
      if WholeSecond(now1) == WholeSecond(now2) {
        assert s2.devices == s1.devices;
      }
    }
  }

  /** What one Upsert does, row by row: this device's row is the given one, and what was given is added. */
  lemma SavedRows(s: Tables, id: DeviceId, row: Device, given: seq<GivenIdentity>, caps: seq<Capability>, now: Time)
    ensures var s' := Saved(s, id, row, given, caps, now);
      && s'.devices.Keys == s.devices.Keys + {id} && s'.pending == s.pending
      && (forall d :: d in s.devices && d != id ==> s'.devices[d] == s.devices[d])
      && var kept := s'.devices[id];
      && kept.person == row.person && kept.title == row.title && kept.kind == row.kind
      && kept.token == row.token && kept.lastSeen == row.lastSeen && kept.updatedAt == WholeSecond(now)
      && (row.state != "" ==> kept.state == row.state) && (row.state == "" ==> kept.state == "active")
    ensures var s' := Saved(s, id, row, given, caps, now);
      && (forall c :: c in s'.caps <==> c in s.caps || (c.device == id && c.cap in caps))
      && (forall r :: r in s'.identities <==>
            r in s.identities || exists g :: g in given && r == Identity(id, g.kind, g.value))
  {
    GivenRowsKeys(id, given, now);
    hide GivenRows, WholeSecond;
  }

  /** And each identity carries the time of its last listing, or the clock's if that gives none. */
  lemma SavedTimes(s: Tables, id: DeviceId, row: Device, given: seq<GivenIdentity>, caps: seq<Capability>, now: Time,
                   i: nat)
    requires LastListed(given, i)
    ensures var s' := Saved(s, id, row, given, caps, now);
      var r := Identity(id, given[i].kind, given[i].value);
      && r in s'.identities
      && (given[i].lastSeen.Some? ==> s'.identities[r] == given[i].lastSeen.value)
      && (given[i].lastSeen.None? ==> s'.identities[r] == now)
  {
    GivenRowAt(id, given, now, i);
    hide GivenRows;
  }
}
