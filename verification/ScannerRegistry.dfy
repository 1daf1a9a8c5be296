/**
 * The scanner and the registry together: over whole runs of a scanner that is the registry's only
 * caller, a universal MAC has a device exactly when it has been seen often enough, and only one.
 */
module ScannerRegistry {
  import opened Prelude
  import opened Registry
  import opened RegistryReplay
  import opened RegistryOwnership
  import opened Scanner
  import Mac

  /** The calls due in cycle k. */
  function DueIn(cycles: seq<CycleInput>, k: nat, hidden: set<string>, minCycles: int): map<string, Observation>
    requires k < |cycles|
  {
    DueLast(cycles[..k + 1], hidden, minCycles)
  }

  /** calls[k] are the observations handed over in cycle k. */
  ghost predicate Hands(cycles: seq<CycleInput>, hidden: set<string>, minCycles: int, calls: seq<seq<Observation>>) {
    && |calls| == |cycles|
    && forall k :: 0 <= k < |cycles| ==> Makes(calls[k], DueIn(cycles, k, hidden, minCycles))
  }

  function Flat(calls: seq<seq<Observation>>): seq<Observation> {
    if calls == [] then [] else Flat(calls[..|calls| - 1]) + calls[|calls| - 1]
  }

  /** The registry's calls are exactly these observations, in order. */
  ghost predicate Observes(ops: seq<Op>, obs: seq<Observation>) {
    |ops| == |obs| && forall i :: 0 <= i < |ops| ==> ops[i].Observe? && ops[i].obs == obs[i]
  }

  /** No source reports an agent_id; only agents do. */
  ghost predicate Agentless(cycles: seq<CycleInput>) {
    forall k, i :: 0 <= k < |cycles| && 0 <= i < |cycles[k].obs| ==> cycles[k].obs[i].agentId == ""
  }

  // ---- what is handed over --------------------------------------------------------------

  lemma SightHasNoAgentId(obs: seq<Observation>, mac: string)
    requires (forall i :: 0 <= i < |obs| ==> obs[i].agentId == "") && mac in Sight(obs)
    ensures Sight(obs)[mac].agentId == "" && Sight(obs)[mac].mac == mac
  {
    BlendTakesFirst(obs, mac, Field.AgentId);
    BlendedExact(obs, mac);
    hide Blended, HostnameFor, HostMac, Hosts;
  }

  lemma DueHasNoAgentId(cycles: seq<CycleInput>, k: nat, hidden: set<string>, minCycles: int, mac: string)
    requires k < |cycles| && Agentless(cycles) && mac in DueIn(cycles, k, hidden, minCycles)
    ensures var o := DueIn(cycles, k, hidden, minCycles)[mac]; o.agentId == "" && o.mac == mac
  {
    hide Sight, SeenAfterAll;
    assert cycles[..k + 1][k] == cycles[k];
    assert forall i :: 0 <= i < |cycles[k].obs| ==> cycles[k].obs[i].agentId == "";
    SightHasNoAgentId(cycles[k].obs, mac);
  }

  lemma {:induction false} FlatMembers(calls: seq<seq<Observation>>, o: Observation)
    ensures o in Flat(calls) <==> exists k :: 0 <= k < |calls| && o in calls[k]
  {
    if calls != [] {
      var front, last := calls[..|calls| - 1], calls[|calls| - 1];
      FlatMembers(front, o);
      if o in Flat(front) {
        var k :| 0 <= k < |front| && o in front[k];
        assert o in calls[k];
      }
      if k :| 0 <= k < |calls| && o in calls[k] {
        if k < |front| {
          assert o in front[k];
        }
      }
    }
  }

  lemma CallsMore(cycles: seq<CycleInput>, n: nat, hidden: set<string>, minCycles: int, mac: string)
    requires n < |cycles|
    ensures CallsFor(cycles[..n + 1], hidden, minCycles, mac) ==
            CallsFor(cycles[..n], hidden, minCycles, mac) + if mac in DueIn(cycles, n, hidden, minCycles) then 1 else 0
  {
    hide DueLast;
    assert cycles[..n + 1][..n] == cycles[..n];
  }

  /** In the first n cycles some call is for the MAC exactly when one was counted. */
  lemma {:induction false} CalledSometime(cycles: seq<CycleInput>, n: nat, hidden: set<string>, minCycles: int,
                                          mac: string)
    requires n <= |cycles|
    ensures CallsFor(cycles[..n], hidden, minCycles, mac) > 0 <==>
            exists k :: 0 <= k < n && mac in DueIn(cycles, k, hidden, minCycles)
  {
    hide DueIn;
    if n > 0 {
      hide CallsFor;
      CalledSometime(cycles, n - 1, hidden, minCycles, mac);
      CallsMore(cycles, n - 1, hidden, minCycles, mac);
    }
  }

  /** Everything handed over is a MAC's due observation, without an agent_id; and every due MAC is handed over. */
  lemma HandedOver(cycles: seq<CycleInput>, hidden: set<string>, minCycles: int, calls: seq<seq<Observation>>,
                   mac: string)
    requires Agentless(cycles) && Hands(cycles, hidden, minCycles, calls)
    ensures forall o :: o in Flat(calls) ==> o.agentId == ""
    ensures (exists o :: o in Flat(calls) && o.mac == mac) <==> CallsFor(cycles, hidden, minCycles, mac) > 0
  {
    CalledSometime(cycles, |cycles|, hidden, minCycles, mac);
    assert cycles[..|cycles|] == cycles;
    hide DueIn, CallsFor, Agentless, Flat;
    forall o | o in Flat(calls)
      ensures o.agentId == ""
      ensures exists k :: 0 <= k < |cycles| && o.mac in DueIn(cycles, k, hidden, minCycles)
    {
      FlatMembers(calls, o);
      var k :| 0 <= k < |calls| && o in calls[k];
      DueHasNoAgentId(cycles, k, hidden, minCycles, o.mac);
    }
    if k :| 0 <= k < |cycles| && mac in DueIn(cycles, k, hidden, minCycles) {
      var o := DueIn(cycles, k, hidden, minCycles)[mac];
      DueHasNoAgentId(cycles, k, hidden, minCycles, mac);
      assert o in calls[k];
      FlatMembers(calls, o);
    }
  }

  // ---- what the registry holds of it ----------------------------------------------------

  lemma HeldAfterStep(s: Tables, op: Op, s': Tables, mac: string)
    requires op.Observe? && Step(s, op, s') && mac != ""
    ensures Holders(s', MacKind, mac) != {} <==> Holders(s, MacKind, mac) != {} || op.obs.mac == mac
  {
    var id :| Reconciled(s, op.obs, op.pick, op.drawn, op.now, s', id);
    hide Reconciled, Holders, Sighted;
    ReconciledRows(s, op.obs, op.pick, op.drawn, op.now, s', id);
    HoldersAfter(s, s', op.obs, id, SeenAt(op.obs, op.now), MacKind, mac);
    assert Gives(op.obs, MacKind, mac) <==> op.obs.mac == mac;
    hide Gives;
    assert {id} != {};
  }

  /** In a run of observations, a MAC is held exactly once some observation carried it. */
  lemma {:induction false} HeldIffObserved(states: seq<Tables>, ops: seq<Op>, n: nat, mac: string)
    requires Run(states, ops) && NoAgentIds(ops) && n <= |ops| && mac != ""
    ensures Holders(states[n], MacKind, mac) != {} <==>
            exists i :: 0 <= i < n && ops[i].Observe? && ops[i].obs.mac == mac
  {
    hide Step;
    if n > 0 {
      HeldIffObserved(states, ops, n - 1, mac);
      HeldAfterStep(states[n - 1], ops[n - 1], states[n], mac);
      hide Holders;
    }
  }

  lemma AtMostOneOwner(s: Tables, mac: string)
    requires StrongUnique(s) && !Mac.IsRandomizedMAC(mac)
    ensures |Holders(s, MacKind, mac)| == if Holders(s, MacKind, mac) == {} then 0 else 1
  {
    var rows := Holders(s, MacKind, mac);
    if rows != {} {
      var d :| d in rows;
      HoldersIff(s, MacKind, mac, d);
      SoleHolder(s, mac, d);
      assert |{d}| == 1;
    }
  }

  /**
   * Whatever the sources report, in whatever order calls and maps come: after any number of cycles a
   * universal MAC is held by exactly one device if it is visible and has been seen in MinCycles
   * cycles, and by none otherwise.
   */
  lemma ScannedMacHasOneDevice(cycles: seq<CycleInput>, hidden: set<string>, minCycles: int,
                               calls: seq<seq<Observation>>, states: seq<Tables>, ops: seq<Op>, mac: string)
    requires Agentless(cycles) && Hands(cycles, hidden, minCycles, calls)
    requires Run(states, ops) && Observes(ops, Flat(calls))
    requires mac != "" && !Mac.IsRandomizedMAC(mac)
    ensures |Holders(states[|ops|], MacKind, mac)| ==
            if mac !in hidden && TimesSeen(cycles, mac) >= Max(minCycles, 1) then 1 else 0
  {
    hide *;
    HandedOver(cycles, hidden, minCycles, calls, mac);
    ObservedAreHanded(ops, Flat(calls), mac);
    RunLength(states, ops);
    AnonymousRunsStayUnique(states, ops, |ops|);
    HeldIffObserved(states, ops, |ops|, mac);
    AtMostOneOwner(states[|ops|], mac);
    CalledIff(cycles, hidden, minCycles, mac);
  }

  lemma CalledIff(cycles: seq<CycleInput>, hidden: set<string>, minCycles: int, mac: string)
    ensures CallsFor(cycles, hidden, minCycles, mac) > 0 <==>
            mac !in hidden && TimesSeen(cycles, mac) >= Max(minCycles, 1)
  {
    hide CallsFor, TimesSeen;
    PromotedExactly(cycles, hidden, minCycles, mac);
  }

  lemma RunLength(states: seq<Tables>, ops: seq<Op>)
    requires Run(states, ops)
    ensures |states| == |ops| + 1
  {
  }

  lemma ObservedAreHanded(ops: seq<Op>, handed: seq<Observation>, mac: string)
    requires Observes(ops, handed) && forall o :: o in handed ==> o.agentId == ""
    ensures NoAgentIds(ops)
    ensures (exists i :: 0 <= i < |ops| && ops[i].Observe? && ops[i].obs.mac == mac) <==>
            exists o :: o in handed && o.mac == mac
  {
    forall i | 0 <= i < |ops|
      ensures ops[i].obs in handed
    {
      assert handed[i] in handed;
    }
    if o :| o in handed && o.mac == mac {
      var i :| 0 <= i < |handed| && handed[i] == o;
      assert ops[i].obs.mac == mac;
    }
  }
}
