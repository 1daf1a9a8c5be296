/**
 * What the scanner hands to the registry, call by call: each field of an observation handed over,
 * in terms of what the sources reported in that cycle.
 */
module ScannerCalls {
  import opened Prelude
  import opened Registry
  import opened Scanner
  import Mac

  // ---- what a source's observation counts for -------------------------------------------

  /** The sources' observations, one source after the other; a failed source gives none. */
  lemma {:induction false} ObservedInOrder(xs: seq<Snapshot>, ys: seq<Snapshot>, obs: seq<Observation>, error: string)
    ensures Observed(xs + ys) == Observed(xs) + Observed(ys)
    ensures Observed([Ok(obs)]) == obs && Observed([Err(error)]) == []
    decreases |ys|
  {
    var ok: Snapshot, err: Snapshot := Ok(obs), Err(error);
    assert [ok][..0] == [] && [err][..0] == [];
    if ys == [] {
      assert xs + ys == xs;
    } else {
      var front := ys[..|ys| - 1];
      assert (xs + ys)[..|xs + ys| - 1] == xs + front;
      ObservedInOrder(xs, front, obs, error);
    }
  }

  /**
   * An observation counts for a MAC iff its own MAC denotes six octets, printed as that MAC, which are
   * no broadcast or multicast address.
   */
  lemma HostByOctets(o: Observation, mac: string)
    ensures HostMac(o) == Some(mac) <==>
      && o.mac != "" && Mac.ParseMac(o.mac).Some?
      && var octets := Mac.ParseMac(o.mac).value;
      && mac == Mac.PrintMac(octets)
      && octets != [255, 255, 255, 255, 255, 255]
      && !([0x01, 0x00, 0x5e] <= octets) && !([0x33, 0x33] <= octets)
  {
    hide Mac.ParseMac, Mac.PrintMac, Mac.IsNonHostMAC;
    if Mac.ParseMac(o.mac).Some? {
      Mac.NonHostByOctets(Mac.ParseMac(o.mac).value);
      Printed(Mac.ParseMac(o.mac).value);
    }
  }

  lemma Printed(octets: Mac.Octets)
    requires |octets| == 6
    ensures Mac.PrintMac(octets) != ""
  {
  }

  // ---- hostnames lent by address --------------------------------------------------------

  /** The i-th observation has no MAC, and lends its hostname to the hosts at this address. */
  predicate Lends(obs: seq<Observation>, i: int, ip: string) {
    0 <= i < |obs| && obs[i].mac == "" && ip != "" && obs[i].ip == ip && obs[i].hostname != ""
  }

  /** name is the hostname of the first observation to lend one to the address; "" when none does. */
  ghost predicate FirstLent(obs: seq<Observation>, ip: string, name: string) {
    if name == "" then forall i :: !Lends(obs, i, ip)
    else exists i :: Lends(obs, i, ip) && obs[i].hostname == name && forall j :: j < i ==> !Lends(obs, j, ip)
  }

  lemma LendsMore(obs: seq<Observation>, o: Observation, i: int, ip: string)
    ensures Lends(obs + [o], i, ip) <==>
            Lends(obs, i, ip) || (i == |obs| && o.mac == "" && ip != "" && o.ip == ip && o.hostname != "")
  {
  }

  lemma FirstLentMore(obs: seq<Observation>, o: Observation, ip: string, name: string)
    requires FirstLent(obs, ip, name)
    ensures FirstLent(obs + [o], ip,
                      if name == "" && o.mac == "" && ip != "" && o.ip == ip then o.hostname else name)
  {
    hide Lends;
    var more := obs + [o];
    forall i
      ensures Lends(more, i, ip) <==>
              Lends(obs, i, ip) || (i == |obs| && o.mac == "" && ip != "" && o.ip == ip && o.hostname != "")
      ensures Lends(obs, i, ip) ==> 0 <= i < |obs|
    {
      LendsMore(obs, o, i, ip);
      LendsInRange(obs, i, ip);
    }
    if name != "" {
      var i :| Lends(obs, i, ip) && obs[i].hostname == name && forall j :: j < i ==> !Lends(obs, j, ip);
      assert Lends(more, i, ip) && more[i].hostname == name;
    } else if o.mac == "" && ip != "" && o.ip == ip && o.hostname != "" {
      assert Lends(more, |obs|, ip) && more[|obs|].hostname == o.hostname;
    }
  }

  lemma LendsInRange(obs: seq<Observation>, i: int, ip: string)
    ensures Lends(obs, i, ip) ==> 0 <= i < |obs|
  {
  }

  lemma HostnameForMore(es: seq<Observation>, e: Observation, ip: string)
    ensures HostnameFor(es + [e], ip) ==
            if HostnameFor(es, ip) == "" && e.ip != "" && e.ip == ip then e.hostname else HostnameFor(es, ip)
  {
    assert (es + [e])[..|es|] == es;
  }

  /** The hostname an address is lent is the first one lent to it. */
  lemma {:induction false} HostnameIsFirstLent(obs: seq<Observation>, ip: string)
    ensures FirstLent(obs, ip, HostnameFor(Enrichers(obs), ip))
  {
    if obs == [] {
      NothingLent(ip);
    } else {
      hide FirstLent, HostnameFor;
      var front, o := obs[..|obs| - 1], obs[|obs| - 1];
      assert obs == front + [o];
      HostnameIsFirstLent(front, ip);
      FirstLentMore(front, o, ip, HostnameFor(Enrichers(front), ip));
      EnrichersMore(front, o);
      hide Enrichers;
      HostnameForMore(Enrichers(front), o, ip);
      assert Enrichers(front) + [] == Enrichers(front);
    }
  }

  lemma NothingLent(ip: string)
    ensures FirstLent([], ip, HostnameFor(Enrichers([]), ip))
  {
  }

  // ---- the calls ------------------------------------------------------------------------

  /** The i-th observation is the first of its MAC. */
  ghost predicate FirstOf(obs: seq<Observation>, i: int, mac: string) {
    Contributes(obs, i, mac) && forall j :: j < i ==> !Contributes(obs, j, mac)
  }

  /** t is the latest time an observation of the MAC gives. */
  ghost predicate LatestOf(obs: seq<Observation>, mac: string, t: Time) {
    && (forall i :: Contributes(obs, i, mac) ==> obs[i].seenAt <= t)
    && exists i :: Contributes(obs, i, mac) && obs[i].seenAt == t
  }

  /** The hostname handed over: the MAC's own first one, else the first one lent to its address, else none. */
  ghost predicate NamedAs(obs: seq<Observation>, mac: string, ip: string, name: string) {
    exists own ::
      && FirstGiven(obs, mac, Field.Hostname, own)
      && (own != "" ==> name == own)
      && (own == "" ==> FirstLent(obs, ip, name))
  }

  /** What is handed over for a MAC, field by field, in terms of what was observed. */
  ghost predicate Reports(obs: seq<Observation>, now: Time, c: Observation) {
    && FirstGiven(obs, c.mac, Field.Ip, c.ip)
    && FirstGiven(obs, c.mac, Field.AgentId, c.agentId)
    && NamedAs(obs, c.mac, c.ip, c.hostname)
    && (exists t :: LatestOf(obs, c.mac, t) && c.seenAt == if t == ZERO_TIME then now else t)
    && c.source == "scan"
    && exists i :: FirstOf(obs, i, c.mac) && c.agentToken == obs[i].agentToken && c.caps == obs[i].caps
                   && c.title == obs[i].title && c.kind == obs[i].kind
  }

  lemma BlendReports(obs: seq<Observation>, mac: string) returns (i: int)
    requires Blended(obs, mac).Some?
    ensures var b := Blended(obs, mac).value;
      && b.mac == mac && FirstOf(obs, i, mac) && LatestOf(obs, mac, b.seenAt)
      && b.agentToken == obs[i].agentToken && b.caps == obs[i].caps
      && b.title == obs[i].title && b.kind == obs[i].kind
  {
    BlendSeenLatest(obs, mac);
    BlendKeepsFirst(obs, mac);
    BlendedExact(obs, mac);
    hide Blended, Contributes;
    i :| Contributes(obs, i, mac) && (forall j :: j < i ==> !Contributes(obs, j, mac))
      && SameElsewhere(Blended(obs, mac).value, obs[i].(mac := mac));
  }

  lemma SightReports(obs: seq<Observation>, mac: string, now: Time)
    requires mac in Sight(obs)
    ensures Reports(obs, now, Promoted(Sight(obs)[mac], now)) && Promoted(Sight(obs)[mac], now).mac == mac
  {
    BlendedExact(obs, mac);
    var b := Blended(obs, mac).value;
    var c := Promoted(Sight(obs)[mac], now);
    assert Sight(obs)[mac] == Enriched(b, Enrichers(obs));
    hide Sight, Blended, Hosts, HostnameFor, Enrichers, FirstGiven, FirstLent, FirstOf, LatestOf;
    var i := BlendReports(obs, mac);
    BlendTakesFirst(obs, mac, Field.Ip);
    BlendTakesFirst(obs, mac, Field.AgentId);
    BlendTakesFirst(obs, mac, Field.Hostname);
    HostnameIsFirstLent(obs, b.ip);
    assert FirstGiven(obs, mac, Field.Hostname, b.hostname);
    assert NamedAs(obs, mac, c.ip, c.hostname);
    assert FirstOf(obs, i, c.mac) && LatestOf(obs, c.mac, b.seenAt);
  }

  /**
   * Every call of a cycle, in whatever order they are made, reports its MAC as observed in that cycle;
   * no two are for the same MAC; and there is one for exactly the visible hosts seen often enough.
   */
  lemma {:induction false} CallsReport(cycles: seq<CycleInput>, hidden: set<string>, minCycles: int,
                                       calls: seq<Observation>)
    requires cycles != [] && Makes(calls, DueLast(cycles, hidden, minCycles))
    ensures var c := cycles[|cycles| - 1];
      && (forall o :: o in calls ==> Reports(c.obs, c.now, o))
      && (forall i, j :: 0 <= i < j < |calls| ==> calls[i].mac != calls[j].mac)
      && forall mac :: (exists o :: o in calls && o.mac == mac) <==>
                       mac in Hosts(c.obs) && mac !in hidden && TimesSeen(cycles, mac) >= minCycles
  {
    var c := cycles[|cycles| - 1];
    var due := DueLast(cycles, hidden, minCycles);
    forall mac | mac in due
      ensures mac in Sight(c.obs) && due[mac] == Promoted(Sight(c.obs)[mac], c.now)
    {
    }
    hide Sight, Hosts, TimesSeen, SeenAfterAll, DueLast, Promoted, Reports;
    forall o | o in calls
      ensures Reports(c.obs, c.now, o)
    {
      SightReports(c.obs, o.mac, c.now);
    }
    forall mac
      ensures (exists o :: o in calls && o.mac == mac) <==>
              mac in Hosts(c.obs) && mac !in hidden && TimesSeen(cycles, mac) >= minCycles
    {
      DueIff(cycles, hidden, minCycles, mac);
      if mac in due {
        SightReports(c.obs, mac, c.now);
        assert due[mac] in calls;
      }
    }
  }
}
