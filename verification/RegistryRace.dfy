/**
 * Strong identifiers when statements interleave. Uniqueness holds exactly as long as no single
 * statement records a strong identity somebody else holds; two calls at once can reach such a
 * statement, and calls that do not carry the same strong identity at the same time cannot.
 */
module RegistryRace {
  import opened Prelude
  import opened Registry
  import opened RegistryReplay
  import opened RegistryInterleaving
  import opened RegistryOwnership
  import Mac

  // ---- exactly when uniqueness holds ----------------------------------------------------

  /** The identity row the call's next statement writes. */
  function Records(c: Call): Option<Identity> {
    match c
    case Merging(obs, d, k, _) =>
      if k < |Writes(obs)| && Writes(obs)[k].Touch? then Some(Identity(d, Writes(obs)[k].kind, Writes(obs)[k].value))
      else None
    case Saving(d, given, _, k) => if k < |given| then Some(Identity(d, given[k].kind, given[k].value)) else None
    case _ => None
  }

  /** The event is a statement that records a strong identity which another device already holds. */
  ghost predicate Clash(y: System, e: Event) {
    e.Statement? && e.caller < |y.calls| && Records(y.calls[e.caller]).Some? &&
    var r := Records(y.calls[e.caller]).value;
    IsStrong(r.kind, r.value) && HeldElsewhere(y.tables, r.device, r.kind, r.value)
  }

  /** One statement writes at most the one identity row, whatever else it does. */
  lemma AdvanceRecords(s: Tables, c: Call, ch: Choice)
    ensures Advance(s, c, ch).0.identities.Keys ==
            s.identities.Keys + if Records(c).Some? then {Records(c).value} else {}
  {
    hide WeakPairs, Writes, Holders, TokenHolders, HasUniversalMac, NewDevice, Repeated, Incremented;
  }

  lemma UniqueByKeys(s: Tables, s': Tables)
    requires s.identities.Keys == s'.identities.Keys
    ensures StrongUnique(s) <==> StrongUnique(s')
  {
    hide StrongUnique;
    if StrongUnique(s) {
      DuplicatesStay(s', s);
    }
    if StrongUnique(s') {
      DuplicatesStay(s, s');
    }
  }

  lemma UniqueAfterRow(s: Tables, s': Tables, r: Identity)
    requires StrongUnique(s) && s'.identities.Keys == s.identities.Keys + {r}
    ensures StrongUnique(s') <==> !(IsStrong(r.kind, r.value) && HeldElsewhere(s, r.device, r.kind, r.value))
  {
    hide IsStrong, StrongUnique, HeldElsewhere;
    var gives := (kind, value) => kind == r.kind && value == r.value;
    forall d, kind, value
      ensures Identity(d, kind, value) in s'.identities <==>
              Identity(d, kind, value) in s.identities || (d == r.device && gives(kind, value))
    {
      assert Identity(d, kind, value) in s'.identities.Keys <==> Identity(d, kind, value) in s.identities.Keys + {r};
    }
    UniqueAfterWrite(s, s', r.device, gives);
    assert gives(r.kind, r.value);
  }

  /** One event leaves unique strong identifiers unique exactly when it is no clash. */
  lemma NextKeepsUniqueIff(y: System, e: Event, y': System)
    requires StrongUnique(y.tables) && Next(y, e, y')
    ensures StrongUnique(y'.tables) <==> !Clash(y, e)
  {
    hide StrongUnique, Advance, Records, IsStrong, HeldElsewhere;
    match e
    case Statement(i, ch) =>
      var c := y.calls[i];
      AdvanceRecords(y.tables, c, ch);
      if Records(c).Some? {
        UniqueAfterRow(y.tables, y'.tables, Records(c).value);
      } else {
        UniqueByKeys(y.tables, y'.tables);
      }
    case _ =>
  }

  lemma NextKeepsRows(y: System, e: Event, y': System)
    requires Next(y, e, y')
    ensures y.tables.identities.Keys <= y'.tables.identities.Keys
  {
    hide Advance, Records;
    if e.Statement? {
      AdvanceRecords(y.tables, y.calls[e.caller], e.choice);
    }
  }

  /**
   * Over every execution from empty tables, however the statements of Reconciles and Upserts
   * interleave and wherever they fail: the strong identifiers are unique after n events if and
   * only if none of these events was a clash.
   */
  lemma {:induction false} UniqueIffNoClash(ys: seq<System>, es: seq<Event>, n: nat)
    requires Execution(ys, es) && n <= |es|
    ensures StrongUnique(ys[n].tables) <==> forall i :: 0 <= i < n ==> !Clash(ys[i], es[i])
  {
    hide Next, Clash;
    if n > 0 {
      UniqueIffNoClash(ys, es, n - 1);
      assert Next(ys[n - 1], es[n - 1], ys[n]);
      hide StrongUnique;
      if StrongUnique(ys[n - 1].tables) {
        NextKeepsUniqueIff(ys[n - 1], es[n - 1], ys[n]);
      } else {
        NextKeepsRows(ys[n - 1], es[n - 1], ys[n]);
        if StrongUnique(ys[n].tables) {
          DuplicatesStay(ys[n - 1].tables, ys[n].tables);
        }
      }
    }
  }

  // ---- calls that do not carry the same strong identity at the same time -----------------

  /** The observation of a Reconcile that is still in progress. */
  function InProgress(c: Call): Option<Observation> {
    match c
    case FindToken(obs) => Some(obs)
    case FindAgent(obs) => Some(obs)
    case FindMac(obs) => Some(obs)
    case Counting(obs, _, _) => Some(obs)
    case Inserting(obs, _) => Some(obs)
    case Merging(obs, _, _, _) => Some(obs)
    case _ => None
  }

  predicate Carries(c: Call, kind: IdentityKind, value: string) {
    InProgress(c).Some? && Gives(InProgress(c).value, kind, value)
  }

  /** No two calls in progress carry the identity. */
  ghost predicate Alone(y: System, kind: IdentityKind, value: string) {
    forall i, j :: 0 <= i < j < |y.calls| ==> !(Carries(y.calls[i], kind, value) && Carries(y.calls[j], kind, value))
  }

  /**
   * The identity is the first strong signal its observation offers: no issued token comes before
   * it, and it is an agent_id, or a universal MAC without one.
   */
  predicate Leads(obs: Observation, issued: set<string>, kind: IdentityKind, value: string) {
    && (obs.agentToken == "" || obs.agentToken !in issued)
    && (kind == AgentKind || (kind == MacKind && !Mac.IsRandomizedMAC(value) && obs.agentId == ""))
  }

  /** An Upsert's call sets only tokens of the given set, and has no statement left that writes the identity. */
  ghost predicate Quiet(c: Call, issued: set<string>, kind: IdentityKind, value: string) {
    && (c.SavingRow? && c.row.token.Some? ==> c.row.token.value in issued)
    && (c.SavingRow? || c.Saving? ==> forall g :: g in c.given ==> g.kind != kind || g.value != value)
  }

  /** The identity leads wherever a Reconcile carries it, and no Upsert lists it. */
  ghost predicate Led(e: Event, issued: set<string>, kind: IdentityKind, value: string) {
    e.Begin? ==>
      && Quiet(e.call, issued, kind, value)
      && (Carries(e.call, kind, value) ==> Leads(InProgress(e.call).value, issued, kind, value))
  }

  /** No device carries a token outside the given set. */
  ghost predicate TokensAmong(s: Tables, issued: set<string>) {
    forall d :: d in s.devices && s.devices[d].token.Some? ==> s.devices[d].token.value in issued
  }

  ghost predicate HeldOnlyBy(s: Tables, d: DeviceId, kind: IdentityKind, value: string) {
    forall e :: Identity(e, kind, value) in s.identities ==> e == d
  }

  ghost predicate AtMostOneHolder(s: Tables, kind: IdentityKind, value: string) {
    forall d, e :: Identity(d, kind, value) in s.identities && Identity(e, kind, value) in s.identities ==> d == e
  }

  /** What a call that carries the identity has established, given that nobody else is about to write it. */
  ghost predicate Settled(s: Tables, c: Call, issued: set<string>, kind: IdentityKind, value: string) {
    Carries(c, kind, value) ==>
      && Leads(InProgress(c).value, issued, kind, value)
      && (c.Counting? || c.Inserting? || (c.FindMac? && kind == AgentKind) ==> Holders(s, kind, value) == {})
      && (c.Merging? ==> HeldOnlyBy(s, c.device, kind, value))
  }

  ghost predicate Orderly(y: System, issued: set<string>, kind: IdentityKind, value: string) {
    && TokensAmong(y.tables, issued)
    && AtMostOneHolder(y.tables, kind, value)
    && forall i :: 0 <= i < |y.calls| ==>
         Quiet(y.calls[i], issued, kind, value) && Settled(y.tables, y.calls[i], issued, kind, value)
  }

  lemma AdvanceKeepsTokens(s: Tables, c: Call, ch: Choice, issued: set<string>, kind: IdentityKind, value: string)
    requires TokensAmong(s, issued) && Quiet(c, issued, kind, value)
    ensures TokensAmong(Advance(s, c, ch).0, issued)
    ensures Quiet(Advance(s, c, ch).1, issued, kind, value)
  {
    hide WeakPairs, Writes, Holders, TokenHolders, HasUniversalMac, Repeated, Incremented;
  }

  /** A call records only what its observation gives. */
  lemma RecordsCarried(c: Call, issued: set<string>, kind: IdentityKind, value: string)
    requires Quiet(c, issued, kind, value)
    requires Records(c).Some? && Records(c).value.kind == kind && Records(c).value.value == value
    ensures c.Merging? && Carries(c, kind, value) && Records(c).value.device == c.device
  {
  }

  /** Where the call stands after its statement, if it carries the identity. */
  lemma SettledAfterSearch(s: Tables, c: Call, ch: Choice, issued: set<string>, kind: IdentityKind, value: string)
    requires TokensAmong(s, issued) && AtMostOneHolder(s, kind, value) && Settled(s, c, issued, kind, value)
    requires !c.SavingRow? && !c.Saving? && !c.Merging? && !c.Inserting?
    ensures Settled(s, Advance(s, c, ch).1, issued, kind, value)
  {
    hide WeakPairs, Writes, Repeated, Incremented, Mac.IsRandomizedMAC, Holders, TokenHolders;
    var c' := Advance(s, c, ch).1;
    forall d
      ensures d in Holders(s, kind, value) <==> Identity(d, kind, value) in s.identities
    {
      HoldersIff(s, kind, value, d);
    }
    if Carries(c', kind, value) {
      assert Carries(c, kind, value);
      if c.FindToken? {
        NoSuchToken(s, issued, c.obs.agentToken);
      }
    }
  }

  lemma NoSuchToken(s: Tables, issued: set<string>, token: string)
    requires TokensAmong(s, issued)
    ensures token !in issued ==> TokenHolders(s, token) == {}
  {
  }

  /** The same devices hold the identity. */
  ghost predicate SameHolders(s: Tables, s': Tables, kind: IdentityKind, value: string) {
    forall d :: Identity(d, kind, value) in s.identities <==> Identity(d, kind, value) in s'.identities
  }

  lemma SettledByHolders(s: Tables, s': Tables, c: Call, issued: set<string>, kind: IdentityKind, value: string)
    requires Settled(s, c, issued, kind, value) && SameHolders(s, s', kind, value)
    ensures Settled(s', c, issued, kind, value)
  {
    hide Leads, Carries;
    forall d
      ensures d in Holders(s, kind, value) <==> d in Holders(s', kind, value)
    {
      HoldersIff(s, kind, value, d);
      HoldersIff(s', kind, value, d);
    }
  }

  /** A call that does not carry the identity neither records it nor comes to carry it. */
  lemma UncarriedIsUnwritten(s: Tables, c: Call, ch: Choice, issued: set<string>, kind: IdentityKind, value: string)
    requires Quiet(c, issued, kind, value) && !Carries(c, kind, value)
    ensures SameHolders(s, Advance(s, c, ch).0, kind, value)
    ensures !Carries(Advance(s, c, ch).1, kind, value)
  {
    hide WeakPairs, Writes, Holders, TokenHolders, HasUniversalMac, NewDevice, Repeated, Incremented, Gives;
    var s' := Advance(s, c, ch).0;
    AdvanceRecords(s, c, ch);
    forall d
      ensures Identity(d, kind, value) in s.identities.Keys <==> Identity(d, kind, value) in s'.identities.Keys
    {
      if Records(c) == Some(Identity(d, kind, value)) {
        RecordsCarried(c, issued, kind, value);
      }
    }
  }

  /** A call that carries it settles on one device, and writes it nowhere else. */
  lemma CarriedIsSettled(s: Tables, c: Call, ch: Choice, issued: set<string>, kind: IdentityKind, value: string)
    requires TokensAmong(s, issued) && AtMostOneHolder(s, kind, value) && Settled(s, c, issued, kind, value)
    requires Carries(c, kind, value)
    ensures AtMostOneHolder(Advance(s, c, ch).0, kind, value)
    ensures Settled(Advance(s, c, ch).0, Advance(s, c, ch).1, issued, kind, value)
  {
    if c.Merging? {
      MergingIsSettled(s, c, ch, issued, kind, value);
    } else if c.Inserting? {
      InsertingIsSettled(s, c, ch, issued, kind, value);
    } else {
      SettledAfterSearch(s, c, ch, issued, kind, value);
      SearchKeepsTables(s, c, ch);
    }
  }

  lemma SearchKeepsTables(s: Tables, c: Call, ch: Choice)
    requires !c.SavingRow? && !c.Saving? && !c.Merging? && !c.Inserting?
    ensures Advance(s, c, ch).0 == s
  {
    hide WeakPairs, Holders, TokenHolders, HasUniversalMac, Repeated, Incremented;
  }

  lemma InsertingIsSettled(s: Tables, c: Call, ch: Choice, issued: set<string>, kind: IdentityKind, value: string)
    requires c.Inserting? && Carries(c, kind, value) && Settled(s, c, issued, kind, value)
    ensures AtMostOneHolder(Advance(s, c, ch).0, kind, value)
    ensures Settled(Advance(s, c, ch).0, Advance(s, c, ch).1, issued, kind, value)
  {
    hide NewDevice, Gives, Leads, Holders;
    forall d
      ensures Identity(d, kind, value) !in s.identities
    {
      HoldersIff(s, kind, value, d);
    }
  }

  lemma MergingIsSettled(s: Tables, c: Call, ch: Choice, issued: set<string>, kind: IdentityKind, value: string)
    requires c.Merging? && Carries(c, kind, value) && Settled(s, c, issued, kind, value)
    ensures AtMostOneHolder(Advance(s, c, ch).0, kind, value)
    ensures Settled(Advance(s, c, ch).0, Advance(s, c, ch).1, issued, kind, value)
  {
    hide Writes, Gives, Leads;
    var s' := Advance(s, c, ch).0;
    AdvanceRecords(s, c, ch);
    forall e | Identity(e, kind, value) in s'.identities.Keys
      ensures e == c.device
    {
      assert Identity(e, kind, value) in s.identities.Keys || Records(c) == Some(Identity(e, kind, value));
    }
    assert HeldOnlyBy(s', c.device, kind, value);
  }

  lemma NextOrderly(y: System, e: Event, y': System, issued: set<string>, kind: IdentityKind, value: string)
    requires Orderly(y, issued, kind, value) && Alone(y, kind, value)
    requires Next(y, e, y') && Led(e, issued, kind, value)
    ensures Orderly(y', issued, kind, value)
  {
    hide Advance, Settled, Gives, Leads, Quiet, TokensAmong, AtMostOneHolder, SameHolders;
    match e
    case Begin(c) => BeginIsSettled(y.tables, e, issued, kind, value);
    case Fail(i) => FailedIsSettled(y.tables, issued, kind, value);
    case Statement(i, ch) =>
      var s, c := y.tables, y.calls[i];
      var s' := y'.tables;
      AdvanceKeepsTokens(s, c, ch, issued, kind, value);
      if Carries(c, kind, value) {
        CarriedIsSettled(s, c, ch, issued, kind, value);
        forall j | 0 <= j < |y'.calls| && j != i
          ensures Settled(s', y'.calls[j], issued, kind, value)
        {
          assert !Carries(y.calls[j], kind, value);
          UncarriedIsSettled(s', y.calls[j], issued, kind, value);
        }
      } else {
        UncarriedIsUnwritten(s, c, ch, issued, kind, value);
        SameAtMostOne(s, s', kind, value);
        UncarriedIsSettled(s', y'.calls[i], issued, kind, value);
        forall j | 0 <= j < |y'.calls| && j != i
          ensures Settled(s', y'.calls[j], issued, kind, value)
        {
          SettledByHolders(s, s', y.calls[j], issued, kind, value);
        }
      }
  }

  lemma UncarriedIsSettled(s: Tables, c: Call, issued: set<string>, kind: IdentityKind, value: string)
    requires !Carries(c, kind, value)
    ensures Settled(s, c, issued, kind, value)
  {
  }

  lemma BeginIsSettled(s: Tables, e: Event, issued: set<string>, kind: IdentityKind, value: string)
    requires e.Begin? && IsEntry(e.call) && Led(e, issued, kind, value)
    ensures Quiet(e.call, issued, kind, value) && Settled(s, e.call, issued, kind, value)
  {
  }

  lemma FailedIsSettled(s: Tables, issued: set<string>, kind: IdentityKind, value: string)
    ensures Quiet(Failed, issued, kind, value) && Settled(s, Failed, issued, kind, value)
  {
  }

  lemma SameAtMostOne(s: Tables, s': Tables, kind: IdentityKind, value: string)
    requires AtMostOneHolder(s, kind, value) && SameHolders(s, s', kind, value)
    ensures AtMostOneHolder(s', kind, value)
  {
  }

  /**
   * In every state up to the n-th, no two Reconciles in progress carry the identity; it leads
   * wherever it is carried; and Upserts do not list it and set only the given tokens.
   */
  ghost predicate Separated(ys: seq<System>, es: seq<Event>, n: nat, issued: set<string>,
                            kind: IdentityKind, value: string)
    requires |ys| == |es| + 1 && n <= |es|
  {
    forall i :: 0 <= i < n ==> Alone(ys[i], kind, value) && Led(es[i], issued, kind, value)
  }

  lemma {:induction false} SeparatedIsOrderly(ys: seq<System>, es: seq<Event>, n: nat, issued: set<string>,
                                              kind: IdentityKind, value: string)
    requires Execution(ys, es) && n <= |es| && Separated(ys, es, n, issued, kind, value)
    ensures Orderly(ys[n], issued, kind, value)
  {
    hide Next, Alone, Led;
    if n == 0 {
      NothingHeldYet(issued, kind, value);
    } else {
      hide Orderly;
      SeparatedIsOrderly(ys, es, n - 1, issued, kind, value);
      assert Next(ys[n - 1], es[n - 1], ys[n]);
      NextOrderly(ys[n - 1], es[n - 1], ys[n], issued, kind, value);
    }
  }

  lemma NothingHeldYet(issued: set<string>, kind: IdentityKind, value: string)
    ensures Orderly(System(EMPTY_TABLES, []), issued, kind, value)
  {
  }

  /**
   * What a caller can check: when Reconciles that carry the same leading identity never overlap and
   * Upserts do not list it, that identity has at most one owner at every moment, whatever else
   * interleaves. If this is so of every strong identity, all of them stay unique; no observation
   * then carries both an agent_id and a universal MAC.
   */
  lemma SeparatedCallsStayUnique(ys: seq<System>, es: seq<Event>, n: nat, issued: set<string>)
    requires Execution(ys, es) && n <= |es|
    requires forall kind, value :: IsStrong(kind, value) ==> Separated(ys, es, n, issued, kind, value)
    ensures StrongUnique(ys[n].tables) && forall i :: 0 <= i < n ==> !Clash(ys[i], es[i])
  {
    assert |ys| == |es| + 1;
    hide Execution, Separated, IsStrong, Clash;
    forall kind, value | IsStrong(kind, value)
      ensures AtMostOneHolder(ys[n].tables, kind, value)
    {
      SeparatedIsOrderly(ys, es, n, issued, kind, value);
    }
    assert StrongUnique(ys[n].tables);
    UniqueIffNoClash(ys, es, n);
  }

  // ---- two calls at once ---------------------------------------------------------------

  ghost predicate Reachable(y: System) {
    exists ys, es :: Execution(ys, es) && ys[|es|] == y
  }

  lemma StartReachable()
    ensures Reachable(System(EMPTY_TABLES, []))
  {
    assert Execution([System(EMPTY_TABLES, [])], []);
  }

  lemma ReachNext(y: System, e: Event, y': System)
    requires Reachable(y) && Next(y, e, y')
    ensures Reachable(y')
  {
    hide Next;
    var ys, es :| Execution(ys, es) && ys[|es|] == y;
    var ys', es' := ys + [y'], es + [e];
    forall i | 0 <= i < |es'|
      ensures Next(ys'[i], es'[i], ys'[i + 1])
    {
      if i < |es| {
        assert Next(ys[i], es[i], ys[i + 1]);
      }
    }
    assert Execution(ys', es') && ys'[|es'|] == y';
  }

  /** Whatever became of call i, its next statement is one more step. */
  lemma ReachStatement(y: System, i: nat, was: Call, ch: Choice, s': Tables, c': Call)
    requires i < |y.calls| && Reachable(System(y.tables, y.calls[i := was]))
    requires ch.drawn !in y.tables.devices && Advance(y.tables, was, ch) == (s', c')
    ensures Reachable(System(s', y.calls[i := c']))
  {
    hide Advance, Reachable;
    var z := System(y.tables, y.calls[i := was]);
    var z' := System(s', y.calls[i := c']);
    assert y.calls[i := was][i := c'] == y.calls[i := c'];
    assert Next(z, Statement(i, ch), z');
    ReachNext(z, Statement(i, ch), z');
  }

  /** A scanner's observation of a MAC nobody holds. */
  predicate Unheld(s: Tables, mac: string) {
    mac != "" && !Mac.IsRandomizedMAC(mac) && Holders(s, MacKind, mac) == {}
  }

  function Scan(mac: string): Observation {
    Sighting("scan", "", mac)
  }

  lemma SearchFindsNothing(s: Tables, mac: string, ch: Choice)
    requires Unheld(s, mac)
    ensures var obs := Scan(mac);
      && Advance(s, FindToken(obs), ch) == (s, FindAgent(obs))
      && Advance(s, FindAgent(obs), ch) == (s, FindMac(obs))
      && Advance(s, FindMac(obs), ch) == (s, Counting(obs, 0, map[]))
      && Advance(s, Counting(obs, 0, map[]), ch) == (s, Inserting(obs, []))
  {
    hide Mac.IsRandomizedMAC;
    var hits: map<DeviceId, nat> := map[];
    assert Repeated(hits, hits.Keys) == {};
    var ds := ch.order({});
    assert Lists(ds, {});
    ListsLength(ds, {});
  }

  lemma ReachInserting(y: System, i: nat, mac: string, ch: Choice)
    requires i < |y.calls| && y.calls[i] == FindToken(Scan(mac)) && Reachable(y)
    requires Unheld(y.tables, mac) && ch.drawn !in y.tables.devices
    ensures Reachable(System(y.tables, y.calls[i := Inserting(Scan(mac), [])]))
  {
    hide Reachable, Unheld, Advance;
    var s, obs := y.tables, Scan(mac);
    SearchFindsNothing(s, mac, ch);
    assert y.calls[i := y.calls[i]] == y.calls;
    ReachStatement(y, i, FindToken(obs), ch, s, FindAgent(obs));
    ReachStatement(y, i, FindAgent(obs), ch, s, FindMac(obs));
    ReachStatement(y, i, FindMac(obs), ch, s, Counting(obs, 0, map[]));
    ReachStatement(y, i, Counting(obs, 0, map[]), ch, s, Inserting(obs, []));
  }

  function WithDevice(s: Tables, mac: string, drawn: DeviceId): Tables {
    s.(devices := s.devices[drawn := NewDevice(Scan(mac), StampOf(Scan(mac), 1))],
       identities := s.identities[Identity(drawn, MacKind, mac) := 1])
  }

  lemma InsertThenTouch(s: Tables, mac: string, ch: Choice, ch': Choice)
    requires mac != "" && ch.now == 1
    ensures var obs := Scan(mac);
      var grown := s.(devices := s.devices[ch.drawn := NewDevice(obs, StampOf(obs, 1))]);
      && Advance(s, Inserting(obs, []), ch) == (grown, Merging(obs, ch.drawn, 0, []))
      && Advance(grown, Merging(obs, ch.drawn, 0, []), ch') ==
        (WithDevice(s, mac, ch.drawn), Merging(obs, ch.drawn, 1, []))
  {
    hide NewDevice;
    assert Writes(Scan(mac))[0] == Touch(MacKind, mac);
  }

  lemma ReachTouched(y: System, i: nat, mac: string, ch: Choice, ch': Choice)
    requires mac != "" && ch.now == 1 && i < |y.calls| && y.calls[i] == Inserting(Scan(mac), []) && Reachable(y)
    requires ch.drawn !in y.tables.devices && ch'.drawn !in y.tables.devices && ch'.drawn != ch.drawn
    ensures Reachable(System(WithDevice(y.tables, mac, ch.drawn), y.calls[i := Merging(Scan(mac), ch.drawn, 1, [])]))
  {
    hide Reachable, Advance, NewDevice;
    var s, obs := y.tables, Scan(mac);
    InsertThenTouch(s, mac, ch, ch');
    var grown := s.(devices := s.devices[ch.drawn := NewDevice(obs, StampOf(obs, 1))]);
    assert y.calls[i := y.calls[i]] == y.calls;
    ReachStatement(y, i, Inserting(obs, []), ch, grown, Merging(obs, ch.drawn, 0, []));
    ReachStatement(System(grown, y.calls), i, Merging(obs, ch.drawn, 0, []),
                   ch', WithDevice(s, mac, ch.drawn), Merging(obs, ch.drawn, 1, []));
  }

  lemma BothArrive(obs: Observation)
    ensures Reachable(System(EMPTY_TABLES, [FindToken(obs), FindToken(obs)]))
  {
    hide Reachable;
    StartReachable();
    var y0, y1 := System(EMPTY_TABLES, []), System(EMPTY_TABLES, [FindToken(obs)]);
    var y2 := System(EMPTY_TABLES, [FindToken(obs), FindToken(obs)]);
    assert y0.calls + [FindToken(obs)] == y1.calls && y1.calls + [FindToken(obs)] == y2.calls;
    ReachNext(y0, Begin(FindToken(obs)), y1);
    ReachNext(y1, Begin(FindToken(obs)), y2);
  }

  /**
   * Two scanner observations of one new universal MAC, whose lookups both run before either
   * write, leave the MAC on two devices: the reconciler keeps strong identifiers unique only
   * between whole calls.
   */
  lemma ConcurrentScansDuplicate(pick: Lookup, order: Order) returns (y: System, mac: string)
    ensures Reachable(y) && !StrongUnique(y.tables)
    ensures y.calls == [Merging(Scan(mac), "A", 1, []), Merging(Scan(mac), "B", 1, [])]
  {
    hide *;
    mac := SomeUniversalMac();
    var obs := Scan(mac);
    var a, b, c := Choice(pick, order, "A", 1), Choice(pick, order, "B", 1), Choice(pick, order, "C", 1);
    NothingHeld(mac);
    BothArrive(obs);
    var y0 := System(EMPTY_TABLES, [FindToken(obs), FindToken(obs)]);
    ReachInserting(y0, 0, mac, a);
    var y1 := System(EMPTY_TABLES, [Inserting(obs, []), FindToken(obs)]);
    assert y0.calls[0 := Inserting(obs, [])] == y1.calls;
    ReachInserting(y1, 1, mac, a);
    var y2 := System(EMPTY_TABLES, [Inserting(obs, []), Inserting(obs, [])]);
    assert y1.calls[1 := Inserting(obs, [])] == y2.calls;
    assert "A"[0] != "B"[0] && "B"[0] != "C"[0] && "A"[0] != "C"[0];
    ReachTouched(y2, 0, mac, a, b);
    var y3 := System(WithDevice(EMPTY_TABLES, mac, "A"), [Merging(obs, "A", 1, []), Inserting(obs, [])]);
    assert y2.calls[0 := Merging(obs, "A", 1, [])] == y3.calls;
    BothRecorded(mac);
    ReachTouched(y3, 1, mac, b, c);
    y := System(WithDevice(y3.tables, mac, "B"), [Merging(obs, "A", 1, []), Merging(obs, "B", 1, [])]);
    assert y3.calls[1 := Merging(obs, "B", 1, [])] == y.calls;
    SharedMac(y.tables, mac, "A", "B");
  }

  lemma NothingHeld(mac: string)
    ensures Holders(EMPTY_TABLES, MacKind, mac) == {}
    ensures mac != "" && !Mac.IsRandomizedMAC(mac) ==> Unheld(EMPTY_TABLES, mac)
    ensures EMPTY_TABLES.devices == map[]
  {
  }

  lemma BothRecorded(mac: string)
    ensures var one := WithDevice(EMPTY_TABLES, mac, "A");
      var two := WithDevice(one, mac, "B");
      && one.devices.Keys == {"A"}
      && Identity("A", MacKind, mac) in two.identities && Identity("B", MacKind, mac) in two.identities
  {
  }
}
