/**
 * One scan cycle: the sources' observations are blended by MAC, enriched by IP, and promoted
 * to the registry once their MAC has been seen in enough cycles.
 */
module Scanner {
  import opened Prelude
  import opened Registry
  import Mac

  // ---- what a cycle sees ----------------------------------------------------------------

  /** A source's snapshot; a source that fails contributes nothing. */
  type Snapshot = Result<seq<Observation>>

  function Observed(snapshots: seq<Snapshot>): seq<Observation> {
    if snapshots == [] then []
    else
      Observed(snapshots[..|snapshots| - 1])
      + (match snapshots[|snapshots| - 1] case Ok(obs) => obs case Err(_) => [])
  }

  /** The blending key: the canonical MAC of a real host. */
  function HostMac(o: Observation): Option<string> {
    if o.mac == "" then None
    else
      var key := Mac.Canonical(o.mac);
      if key == "" || Mac.IsNonHostMAC(key) then None else Some(key)
  }

  /** mergeObs: the first observation wins, gaps are filled, the later time is kept. */
  function MergeObs(a: Observation, b: Observation): Observation {
    a.(ip := if a.ip == "" then b.ip else a.ip,
       hostname := if a.hostname == "" then b.hostname else a.hostname,
       agentId := if a.agentId == "" then b.agentId else a.agentId,
       seenAt := if b.seenAt > a.seenAt then b.seenAt else a.seenAt)
  }

  /** Everything observed under one MAC, merged in order of arrival. */
  function Blended(obs: seq<Observation>, mac: string): Option<Observation> {
    if obs == [] then None
    else
      var before, o := Blended(obs[..|obs| - 1], mac), obs[|obs| - 1];
      if HostMac(o) != Some(mac) then before
      else if before.Some? then Some(MergeObs(before.value, o.(mac := mac)))
      else Some(o.(mac := mac))
  }

  /** The observations without a MAC. */
  function Enrichers(obs: seq<Observation>): seq<Observation> {
    if obs == [] then []
    else Enrichers(obs[..|obs| - 1]) + if obs[|obs| - 1].mac == "" then [obs[|obs| - 1]] else []
  }

  /** The first non-empty hostname among the enrichers of an address. */
  function HostnameFor(es: seq<Observation>, ip: string): string {
    if es == [] then ""
    else
      var name := HostnameFor(es[..|es| - 1], ip);
      var e := es[|es| - 1];
      if name == "" && e.ip != "" && e.ip == ip then e.hostname else name
  }

  function Enriched(o: Observation, es: seq<Observation>): Observation {
    if o.hostname == "" then o.(hostname := HostnameFor(es, o.ip)) else o
  }

  function Hosts(obs: seq<Observation>): set<string> {
    set o | o in obs && HostMac(o).Some? :: HostMac(o).value
  }

  lemma {:induction false} BlendedExact(obs: seq<Observation>, mac: string)
    ensures Blended(obs, mac).Some? <==> mac in Hosts(obs)
    ensures Blended(obs, mac).Some? ==> Blended(obs, mac).value.mac == mac
  {
    hide HostMac;
    if obs != [] {
      var front, o := obs[..|obs| - 1], obs[|obs| - 1];
      assert obs == front + [o];
      BlendedExact(front, mac);
    }
  }

  /** The fields a blend fills in from later observations. */
  datatype Field = Ip | Hostname | AgentId

  function Get(o: Observation, f: Field): string {
    match f
    case Ip => o.ip
    case Hostname => o.hostname
    case AgentId => o.agentId
  }

  predicate Contributes(obs: seq<Observation>, i: int, mac: string) {
    0 <= i < |obs| && HostMac(obs[i]) == Some(mac)
  }

  /** value is what the first observation of the MAC to give the field says; "" when none gives it. */
  ghost predicate FirstGiven(obs: seq<Observation>, mac: string, f: Field, value: string) {
    if value == "" then forall i :: Contributes(obs, i, mac) ==> Get(obs[i], f) == ""
    else
      exists i :: Contributes(obs, i, mac) && Get(obs[i], f) == value
        && forall j :: j < i && Contributes(obs, j, mac) ==> Get(obs[j], f) == ""
  }

  lemma FirstGivenMore(obs: seq<Observation>, o: Observation, mac: string, f: Field, value: string)
    requires FirstGiven(obs, mac, f, value)
    ensures FirstGiven(obs + [o], mac, f, if HostMac(o) == Some(mac) && value == "" then Get(o, f) else value)
  {
    hide HostMac;
    var more := obs + [o];
    forall i | 0 <= i < |obs|
      ensures Contributes(more, i, mac) <==> Contributes(obs, i, mac)
    {
      assert more[i] == obs[i];
    }
    if value != "" {
      var i :| Contributes(obs, i, mac) && Get(obs[i], f) == value
        && forall j :: j < i && Contributes(obs, j, mac) ==> Get(obs[j], f) == "";
      assert Contributes(more, i, mac) && Get(more[i], f) == value;
    } else if HostMac(o) == Some(mac) && Get(o, f) != "" {
      assert Contributes(more, |obs|, mac);
    }
  }

  /** A blend's address, hostname and agent_id are the first ones given. */
  lemma {:induction false} BlendTakesFirst(obs: seq<Observation>, mac: string, f: Field)
    ensures FirstGiven(obs, mac, f, if Blended(obs, mac).Some? then Get(Blended(obs, mac).value, f) else "")
  {
    hide HostMac, FirstGiven;
    if obs == [] {
      NothingGiven(mac, f);
    } else {
      var front, o := obs[..|obs| - 1], obs[|obs| - 1];
      assert obs == front + [o];
      BlendTakesFirst(front, mac, f);
      FirstGivenMore(front, o, mac, f, if Blended(front, mac).Some? then Get(Blended(front, mac).value, f) else "");
    }
  }

  lemma NothingGiven(mac: string, f: Field)
    ensures FirstGiven([], mac, f, "")
  {
  }

  lemma BlendedMore(obs: seq<Observation>, o: Observation, mac: string)
    ensures Blended(obs + [o], mac) ==
            if HostMac(o) != Some(mac) then Blended(obs, mac)
            else if Blended(obs, mac).Some? then Some(MergeObs(Blended(obs, mac).value, o.(mac := mac)))
            else Some(o.(mac := mac))
  {
    hide HostMac, MergeObs;
    assert (obs + [o])[..|obs|] == obs;
  }

  lemma ContributesMore(obs: seq<Observation>, o: Observation, mac: string)
    ensures forall i ::
      Contributes(obs + [o], i, mac) <==> Contributes(obs, i, mac) || (i == |obs| && HostMac(o) == Some(mac))
    ensures Blended(obs, mac).None? ==> forall i :: !Contributes(obs, i, mac)
  {
    hide HostMac, Blended;
    BlendedExact(obs, mac);
    forall i | Contributes(obs, i, mac)
      ensures Blended(obs, mac).Some?
    {
      assert obs[i] in obs;
    }
  }

  /** A blend was seen when any of its observations last was. */
  lemma {:induction false} BlendSeenLatest(obs: seq<Observation>, mac: string)
    requires Blended(obs, mac).Some?
    ensures forall i :: Contributes(obs, i, mac) ==> obs[i].seenAt <= Blended(obs, mac).value.seenAt
    ensures exists i :: Contributes(obs, i, mac) && obs[i].seenAt == Blended(obs, mac).value.seenAt
  {
    var front, o := obs[..|obs| - 1], obs[|obs| - 1];
    hide Blended, HostMac, Contributes;
    assert obs == front + [o];
    BlendedMore(front, o, mac);
    ContributesMore(front, o, mac);
    if Blended(front, mac).Some? {
      BlendSeenLatest(front, mac);
      var i :| Contributes(front, i, mac) && front[i].seenAt == Blended(front, mac).value.seenAt;
      assert Contributes(obs, i, mac);
    }
    if HostMac(o) == Some(mac) {
      assert Contributes(obs, |front|, mac);
    }
  }

  /** Apart from that time and the fields filled in, a blend is its first observation under the canonical MAC. */
  lemma {:induction false} BlendKeepsFirst(obs: seq<Observation>, mac: string)
    requires Blended(obs, mac).Some?
    ensures exists i ::
      && Contributes(obs, i, mac) && (forall j :: j < i ==> !Contributes(obs, j, mac))
      && SameElsewhere(Blended(obs, mac).value, obs[i].(mac := mac))
  {
    var front, o := obs[..|obs| - 1], obs[|obs| - 1];
    hide Blended, HostMac, Contributes, MergeObs, SameElsewhere;
    assert obs == front + [o];
    BlendedMore(front, o, mac);
    ContributesMore(front, o, mac);
    SameElsewhereReflexive(o.(mac := mac));
    if Blended(front, mac).Some? {
      BlendKeepsFirst(front, mac);
      var i :| Contributes(front, i, mac) && (forall j :: j < i ==> !Contributes(front, j, mac))
        && SameElsewhere(Blended(front, mac).value, front[i].(mac := mac));
      assert Contributes(obs, i, mac);
      MergeKeepsElsewhere(Blended(front, mac).value, o.(mac := mac), obs[i].(mac := mac));
    } else {
      assert Contributes(obs, |front|, mac);
    }
  }

  lemma SameElsewhereReflexive(a: Observation)
    ensures SameElsewhere(a, a)
  {
  }

  lemma MergeKeepsElsewhere(a: Observation, b: Observation, first: Observation)
    requires SameElsewhere(a, first)
    ensures SameElsewhere(MergeObs(a, b), first)
  {
  }

  predicate SameElsewhere(a: Observation, b: Observation) {
    a == b.(ip := a.ip, hostname := a.hostname, agentId := a.agentId, seenAt := a.seenAt)
  }

  /** What the registry is told about one MAC. */
  function Promoted(o: Observation, now: Time): Observation {
    o.(source := "scan", seenAt := if o.seenAt == ZERO_TIME then now else o.seenAt)
  }

  /** The blended and enriched observation of every host seen in the cycle. */
  function Sight(obs: seq<Observation>): (m: map<string, Observation>)
    ensures m.Keys == Hosts(obs)
    ensures forall mac :: mac in m ==> m[mac].mac == mac
  {
    assert forall mac :: mac in Hosts(obs) ==> Blended(obs, mac).Some? && Blended(obs, mac).value.mac == mac by {
      forall mac | mac in Hosts(obs)
        ensures Blended(obs, mac).Some? && Blended(obs, mac).value.mac == mac
      {
        BlendedExact(obs, mac);
      }
    }
    map mac | mac in Hosts(obs) :: Enriched(Blended(obs, mac).value, Enrichers(obs))
  }

  // ---- the counters ---------------------------------------------------------------------

  function Tally(seen: map<string, nat>, mac: string): nat {
    if mac in seen then seen[mac] else 0
  }

  function SeenAfter(seen: map<string, nat>, macs: set<string>): map<string, nat> {
    map mac | mac in seen.Keys + macs :: Tally(seen, mac) + if mac in macs then 1 else 0
  }

  /** The calls due after counting: one for each visible host that has been seen often enough. */
  function Due(seen: map<string, nat>, sight: map<string, Observation>, hidden: set<string>, minCycles: int,
               now: Time): map<string, Observation> {
    map mac | mac in sight && mac !in hidden && Tally(seen, mac) >= minCycles :: Promoted(sight[mac], now)
  }

  /** The calls list exactly the due observations, each once, in some order. */
  ghost predicate Makes(calls: seq<Observation>, due: map<string, Observation>) {
    && (forall i, j :: 0 <= i < j < |calls| ==> calls[i].mac != calls[j].mac)
    && (forall c :: c in calls ==> c.mac in due && due[c.mac] == c)
    && forall mac :: mac in due ==> due[mac] in calls
  }

  // ---- the cycle ------------------------------------------------------------------------

  ghost predicate BlendsInto(obs: seq<Observation>, blended: map<string, Observation>) {
    forall mac :: Blended(obs, mac) == if mac in blended then Some(blended[mac]) else None
  }

  lemma BlendsMore(obs: seq<Observation>, o: Observation, blended: map<string, Observation>)
    requires BlendsInto(obs, blended)
    ensures match HostMac(o)
      case None => BlendsInto(obs + [o], blended)
      case Some(key) =>
        var blend := if key in blended then MergeObs(blended[key], o.(mac := key)) else o.(mac := key);
        BlendsInto(obs + [o], blended[key := blend])
  {
    hide HostMac;
    assert (obs + [o])[..|obs|] == obs;
  }

  method Blend(snapshots: seq<Snapshot>) returns (blended: map<string, Observation>, enrichers: seq<Observation>)
    ensures BlendsInto(Observed(snapshots), blended)
    ensures enrichers == Enrichers(Observed(snapshots))
  {
    hide BlendsInto, HostMac, Mac.Canonical, Mac.IsNonHostMAC;
    blended, enrichers := map[], [];
    NothingBlended();
    for i := 0 to |snapshots|
      invariant BlendsInto(Observed(snapshots[..i]), blended)
      invariant enrichers == Enrichers(Observed(snapshots[..i]))
    {
      assert snapshots[..i + 1][..i] == snapshots[..i];
      if snapshots[i].Ok? {
        var obs := snapshots[i].value;
        blended, enrichers := BlendSource(blended, enrichers, obs, Observed(snapshots[..i]));
      } else {
        assert Observed(snapshots[..i]) + [] == Observed(snapshots[..i]);
      }
    }
    assert snapshots[..|snapshots|] == snapshots;
  }

  lemma NothingBlended()
    ensures BlendsInto([], map[])
  {
  }

  lemma EnrichersMore(obs: seq<Observation>, o: Observation)
    ensures Enrichers(obs + [o]) == Enrichers(obs) + if o.mac == "" then [o] else []
  {
    assert (obs + [o])[..|obs|] == obs;
  }

  /** One source's observations, one by one. */
  method BlendSource(start: map<string, Observation>, found: seq<Observation>, obs: seq<Observation>,
                     ghost before: seq<Observation>)
    returns (blended: map<string, Observation>, enrichers: seq<Observation>)
    requires BlendsInto(before, start) && found == Enrichers(before)
    ensures BlendsInto(before + obs, blended) && enrichers == Enrichers(before + obs)
  {
    hide BlendsInto, Enrichers, Mac.Canonical, Mac.IsNonHostMAC;
    blended, enrichers := start, found;
    assert before + obs[..0] == before;
    for i := 0 to |obs|
      invariant BlendsInto(before + obs[..i], blended)
      invariant enrichers == Enrichers(before + obs[..i])
    {
      var o := obs[i];
      assert before + obs[..i + 1] == before + obs[..i] + [o];
      EnrichersMore(before + obs[..i], o);
      BlendsMore(before + obs[..i], o, blended);
      if o.mac == "" {
        enrichers := enrichers + [o];
        continue;
      }
      var key := Mac.Canonical(o.mac);
      if key == "" || Mac.IsNonHostMAC(key) {
        continue;
      }
      o := o.(mac := key);
      if key in blended {
        blended := blended[key := MergeObs(blended[key], o)];
      } else {
        blended := blended[key := o];
      }
    }
    assert before + obs[..|obs|] == before + obs;
  }

  function EnrichedAll(blended: map<string, Observation>, es: seq<Observation>): map<string, Observation> {
    map mac | mac in blended :: Enriched(blended[mac], es)
  }

  /** One enricher applied to one blended observation. */
  function Lent(b: Observation, e: Observation): Observation {
    if b.ip == e.ip && b.hostname == "" && e.hostname != "" then b.(hostname := e.hostname) else b
  }

  lemma EnrichedMore(o: Observation, es: seq<Observation>, e: Observation)
    ensures Enriched(o, es + [e]) == if e.ip == "" then Enriched(o, es) else Lent(Enriched(o, es), e)
  {
    assert (es + [e])[..|es|] == es;
  }

  /** Every enricher, in order, over every blended host, in whatever order the map yields them. */
  method Enrich(start: map<string, Observation>, es: seq<Observation>) returns (blended: map<string, Observation>)
    ensures blended == EnrichedAll(start, es)
  {
    hide Enriched;
    blended := start;
    assert EnrichedAll(start, []) == start by {
      forall mac | mac in start
        ensures Enriched(start[mac], []) == start[mac]
      {
        EnrichedByNone(start[mac]);
      }
    }
    assert es[..0] == [];
    for i := 0 to |es|
      invariant blended == EnrichedAll(start, es[..i])
    {
      var e := es[i];
      assert es[..i + 1] == es[..i] + [e];
      forall mac | mac in start
        ensures Enriched(start[mac], es[..i + 1]) ==
                if e.ip == "" then Enriched(start[mac], es[..i]) else Lent(Enriched(start[mac], es[..i]), e)
      {
        EnrichedMore(start[mac], es[..i], e);
      }
      if e.ip != "" {
        blended := LendToAll(blended, e);
      }
      assert blended == EnrichedAll(start, es[..i + 1]);
    }
    assert es[..|es|] == es;
  }

  lemma EnrichedByNone(o: Observation)
    ensures Enriched(o, []) == o
  {
  }

  method LendToAll(start: map<string, Observation>, e: Observation) returns (blended: map<string, Observation>)
    ensures blended == map mac | mac in start :: Lent(start[mac], e)
  {
    blended := start;
    var todo := start.Keys;
    while todo != {}
      invariant todo <= start.Keys
      invariant blended == map mac | mac in start :: if mac in todo then start[mac] else Lent(start[mac], e)
      decreases todo
    {
      var mac :| mac in todo;
      var b := blended[mac];
      if b.ip == e.ip {
        if b.hostname == "" && e.hostname != "" {
          b := b.(hostname := e.hostname);
        }
        blended := blended[mac := b];
      }
      todo := todo - {mac};
    }
  }

  class Scanner {
    var seen: map<string, nat>
    const minCycles: int
    const hidden: set<string>

    constructor (minCycles: int, hidden: set<string>)
      ensures seen == map[] && this.minCycles == minCycles && this.hidden == hidden
    {
      seen := map[];
      this.minCycles, this.hidden := minCycles, hidden;
    }

    /** One uncancelled cycle; calls are the observations handed to Reconcile, in order. */
    method Cycle(snapshots: seq<Snapshot>, now: Time) returns (calls: seq<Observation>)
      modifies this
      ensures var sight := Sight(Observed(snapshots));
        seen == SeenAfter(old(seen), sight.Keys - hidden) && Makes(calls, Due(seen, sight, hidden, minCycles, now))
    {
      var blended, enrichers := Blend(snapshots);
      blended := Enrich(blended, enrichers);
      SightIsBlended(Observed(snapshots), blended);
      calls := Promote(blended, now);
    }

    /** Count one sighting of a host, and promote it if it has now been seen often enough. */
    method Visit(mac: string, sighted: Observation, now: Time) returns (call: Option<Observation>)
      modifies this
      ensures seen == if mac in hidden then old(seen) else old(seen)[mac := Tally(old(seen), mac) + 1]
      ensures call == if mac !in hidden && Tally(seen, mac) >= minCycles then Some(Promoted(sighted, now)) else None
    {
      if mac in hidden {
        return None;
      }
      seen := seen[mac := Tally(seen, mac) + 1];
      var count := seen[mac];
      if count < minCycles {
        return None;
      }
      var o := sighted.(source := "scan");
      if o.seenAt == ZERO_TIME {
        o := o.(seenAt := now);
      }
      return Some(o);
    }

    /** The promotion loop, over the blended map in any order. */
    method Promote(blended: map<string, Observation>, now: Time) returns (calls: seq<Observation>)
      requires forall mac :: mac in blended ==> blended[mac].mac == mac
      modifies this
      ensures seen == SeenAfter(old(seen), blended.Keys - hidden)
      ensures Makes(calls, Due(seen, blended, hidden, minCycles, now))
    {
      calls := [];
      ghost var done: set<string> := {};
      var todo := blended.Keys;
      NothingDone(seen, blended, hidden, minCycles, now);
      while todo != {}
        invariant done !! todo && done + todo == blended.Keys
        invariant seen == SeenAfter(old(seen), done - hidden)
        invariant Makes(calls, DueAmong(seen, blended, hidden, minCycles, now, done))
        decreases todo
      {
        hide Makes, SeenAfter, DueAmong, Promoted;
        var mac :| mac in todo;
        ghost var was := seen;
        var call := Visit(mac, blended[mac], now);
        VisitCounts(old(seen), done, hidden, mac);
        DueAmongMore(was, seen, blended, hidden, minCycles, now, done, mac);
        if call.Some? {
          MakesOneMore(calls, DueAmong(was, blended, hidden, minCycles, now, done), mac, call.value);
          calls := calls + [call.value];
        }
        todo := todo - {mac};
        done := done + {mac};
      }
      assert done == blended.Keys;
      assert DueAmong(seen, blended, hidden, minCycles, now, done) == Due(seen, blended, hidden, minCycles, now);
    }
  }

  lemma SightIsBlended(obs: seq<Observation>, enriched: map<string, Observation>)
    requires exists blended :: BlendsInto(obs, blended) && enriched == EnrichedAll(blended, Enrichers(obs))
    ensures enriched == Sight(obs)
  {
    hide Enriched, Hosts;
    var blended :| BlendsInto(obs, blended) && enriched == EnrichedAll(blended, Enrichers(obs));
    forall mac
      ensures mac in blended <==> mac in Hosts(obs)
      ensures mac in blended ==> blended[mac] == Blended(obs, mac).value
    {
      BlendedExact(obs, mac);
      assert Blended(obs, mac) == if mac in blended then Some(blended[mac]) else None;
    }
  }

  /** The due calls, among the hosts handled so far. */
  function DueAmong(seen: map<string, nat>, sight: map<string, Observation>, hidden: set<string>, minCycles: int,
                    now: Time, among: set<string>): map<string, Observation> {
    map mac | mac in sight && mac in among && mac !in hidden && Tally(seen, mac) >= minCycles ::
      Promoted(sight[mac], now)
  }

  lemma NothingDone(seen: map<string, nat>, sight: map<string, Observation>, hidden: set<string>, minCycles: int,
                    now: Time)
    ensures seen == SeenAfter(seen, {} - hidden)
    ensures Makes([], DueAmong(seen, sight, hidden, minCycles, now, {}))
  {
    assert {} - hidden == {};
    assert DueAmong(seen, sight, hidden, minCycles, now, {}) == map[];
  }

  lemma VisitCounts(seen: map<string, nat>, done: set<string>, hidden: set<string>, mac: string)
    requires mac !in done
    ensures var was := SeenAfter(seen, done - hidden);
      SeenAfter(seen, done + {mac} - hidden) == if mac in hidden then was else was[mac := Tally(was, mac) + 1]
  {
  }

  lemma DueAmongMore(was: map<string, nat>, seen: map<string, nat>, sight: map<string, Observation>,
                     hidden: set<string>, minCycles: int, now: Time, done: set<string>, mac: string)
    requires mac in sight && mac !in done && sight[mac].mac == mac
    requires forall x :: x in sight ==> sight[x].mac == x
    requires seen == if mac in hidden then was else was[mac := Tally(was, mac) + 1]
    ensures var before := DueAmong(was, sight, hidden, minCycles, now, done);
      && mac !in before && Promoted(sight[mac], now).mac == mac && (forall x :: x in before ==> before[x].mac == x)
      && DueAmong(seen, sight, hidden, minCycles, now, done + {mac}) ==
         if mac !in hidden && Tally(seen, mac) >= minCycles then before[mac := Promoted(sight[mac], now)] else before
  {
  }

  lemma MakesOneMore(calls: seq<Observation>, due: map<string, Observation>, mac: string, o: Observation)
    requires Makes(calls, due) && mac !in due && o.mac == mac
    ensures Makes(calls + [o], due[mac := o])
  {
  }

  // ---- whole runs -----------------------------------------------------------------------

  /** The observations of each cycle of a run, and the clock it read. */
  datatype CycleInput = CycleInput(obs: seq<Observation>, now: Time)

  /** The counters after a run from a fresh scanner. */
  function SeenAfterAll(cycles: seq<CycleInput>, hidden: set<string>): map<string, nat> {
    if cycles == [] then map[]
    else SeenAfter(SeenAfterAll(cycles[..|cycles| - 1], hidden), Sight(cycles[|cycles| - 1].obs).Keys - hidden)
  }

  /** In how many cycles the MAC was seen. */
  function TimesSeen(cycles: seq<CycleInput>, mac: string): nat {
    if cycles == [] then 0
    else TimesSeen(cycles[..|cycles| - 1], mac) + if mac in Hosts(cycles[|cycles| - 1].obs) then 1 else 0
  }

  /** The calls due in the last cycle of a run. */
  function DueLast(cycles: seq<CycleInput>, hidden: set<string>, minCycles: int): map<string, Observation>
    requires cycles != []
  {
    var c := cycles[|cycles| - 1];
    Due(SeenAfterAll(cycles, hidden), Sight(c.obs), hidden, minCycles, c.now)
  }

  predicate CalledLast(cycles: seq<CycleInput>, hidden: set<string>, minCycles: int, mac: string)
    requires cycles != []
  {
    mac in DueLast(cycles, hidden, minCycles)
  }

  /** How many calls a run makes for the MAC: in each cycle one, if it is due. */
  function CallsFor(cycles: seq<CycleInput>, hidden: set<string>, minCycles: int, mac: string): nat {
    if cycles == [] then 0
    else
      CallsFor(cycles[..|cycles| - 1], hidden, minCycles, mac)
      + if CalledLast(cycles, hidden, minCycles, mac) then 1 else 0
  }

  lemma {:induction false} CountIsTimesSeen(cycles: seq<CycleInput>, hidden: set<string>, mac: string)
    ensures Tally(SeenAfterAll(cycles, hidden), mac) == if mac in hidden then 0 else TimesSeen(cycles, mac)
  {
    hide Sight, Hosts;
    if cycles != [] {
      CountIsTimesSeen(cycles[..|cycles| - 1], hidden, mac);
    }
  }

  lemma DueIff(cycles: seq<CycleInput>, hidden: set<string>, minCycles: int, mac: string)
    requires cycles != []
    ensures CalledLast(cycles, hidden, minCycles, mac) <==>
            mac in Hosts(cycles[|cycles| - 1].obs) && mac !in hidden && TimesSeen(cycles, mac) >= minCycles
  {
    hide Sight, Hosts, SeenAfterAll, TimesSeen, Promoted;
    CountIsTimesSeen(cycles, hidden, mac);
  }

  function Max(a: int, b: int): int {
    if a >= b then a else b
  }

  /**
   * Promotion over a whole run: a visible MAC seen in k cycles is handed to the registry in
   * exactly the k - MinCycles + 1 last of them (all of them when MinCycles is not positive);
   * a hidden one never.
   */
  lemma {:induction false} PromotedExactly(cycles: seq<CycleInput>, hidden: set<string>, minCycles: int, mac: string)
    ensures CallsFor(cycles, hidden, minCycles, mac) ==
            if mac in hidden then 0 else Max(0, TimesSeen(cycles, mac) - Max(minCycles, 1) + 1)
  {
    hide Hosts, CalledLast;
    if cycles != [] {
      PromotedExactly(cycles[..|cycles| - 1], hidden, minCycles, mac);
      DueIff(cycles, hidden, minCycles, mac);
    }
  }

  /** Broadcast and multicast addresses, and anything that is not a canonical MAC, are never handed over. */
  lemma OnlyHostsAreCalled(cycles: seq<CycleInput>, hidden: set<string>, minCycles: int, mac: string)
    requires cycles != [] && mac in DueLast(cycles, hidden, minCycles)
    ensures mac !in hidden && mac != "" && Mac.Canonical(mac) == mac && !Mac.IsNonHostMAC(mac)
    ensures var o := DueLast(cycles, hidden, minCycles)[mac]; o.source == "scan" && o.mac == mac
  {
    hide Mac.Canonical, Mac.IsNonHostMAC, Blended, Enriched, SeenAfterAll;
    var obs := cycles[|cycles| - 1].obs;
    assert mac in Hosts(obs);
    var o :| o in obs && HostMac(o) == Some(mac);
    Mac.NormalizeIdempotent(o.mac);
  }
}
