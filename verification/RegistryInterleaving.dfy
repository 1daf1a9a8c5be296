/**
 * Reconcile and Upsert as sequences of single SQL statements. Nothing holds a transaction
 * across them, so the statements of concurrent calls may interleave in any way.
 */
module RegistryInterleaving {
  import opened Prelude
  import opened Registry
  import opened RegistryReplay
  import Mac

  /** The order in which a Go map of confident devices is traversed. */
  type Order = f: set<DeviceId> -> seq<DeviceId> | forall ds: set<DeviceId> :: Lists(f(ds), ds)
    ghost witness SomeOrder

  ghost function SomeOrder(ds: set<DeviceId>): (r: seq<DeviceId>)
    ensures Lists(r, ds)
  {
    if ds == {} then []
    else
      var d :| d in ds;
      assert ds == (ds - {d}) + {d};
      SomeOrder(ds - {d}) + [d]
  }

  /** What the outside world contributes to one statement. */
  datatype Choice = Choice(pick: Lookup, order: Order, drawn: DeviceId, now: Time)

  datatype Write = Touch(kind: IdentityKind, value: string) | AddCap(cap: Capability) | SetLastSeen

  /** Where a call stands: the constructor names the next statement. */
  datatype Call =
    | FindToken(obs: Observation)
    | FindAgent(obs: Observation)
    | FindMac(obs: Observation)
    | Counting(obs: Observation, done: nat, hits: map<DeviceId, nat>)
    | Inserting(obs: Observation, confident: seq<DeviceId>)
    | Merging(obs: Observation, device: DeviceId, written: nat, flag: seq<DeviceId>)
    | SavingRow(id: DeviceId, row: Device, given: seq<GivenIdentity>, caps: seq<Capability>)
    | Saving(device: DeviceId, given: seq<GivenIdentity>, caps: seq<Capability>, written: nat)
    | Finished(answer: DeviceId)
    | Failed

  function TouchOf(kind: IdentityKind, value: string): seq<Write> {
    if value == "" then [] else [Touch(kind, value)]
  }

  function AddCaps(caps: seq<Capability>): (ws: seq<Write>)
    ensures |ws| == |caps| && forall i :: 0 <= i < |caps| ==> ws[i] == AddCap(caps[i])
  {
    seq(|caps|, i requires 0 <= i < |caps| => AddCap(caps[i]))
  }

  function Touches(obs: Observation): seq<Write> {
    TouchOf(AgentKind, obs.agentId) + TouchOf(MacKind, obs.mac) + TouchOf(IpKind, obs.ip)
      + TouchOf(HostnameKind, obs.hostname)
  }

  /** mergeObservation's statements, in its order. */
  function Writes(obs: Observation): seq<Write> {
    Touches(obs) + AddCaps(if obs.source == "agent" then obs.caps else []) + [SetLastSeen]
  }

  function GivenStamp(g: GivenIdentity, now: Time): Stamp {
    Stamp(GivenTime(g, now), WholeSecond(now))
  }

  function Apply(s: Tables, d: DeviceId, w: Write, stamp: Stamp): Tables {
    match w
    case Touch(kind, value) => s.(identities := s.identities[Identity(d, kind, value) := stamp.seen])
    case AddCap(cap) => s.(caps := s.caps + {CapRow(d, cap)})
    case SetLastSeen => s.(devices := Touched(s, d, stamp))
  }

  /** One statement of one call: its effect on the tables, and where the call stands next. */
  function Advance(s: Tables, c: Call, ch: Choice): (Tables, Call) {
    match c
    case FindToken(obs) =>
      var rows := TokenHolders(s, obs.agentToken);
      var found := obs.agentToken != "" && rows != {};
      (s, if found then Merging(obs, ch.pick(ByToken(obs.agentToken), rows), 0, []) else FindAgent(obs))
    case FindAgent(obs) =>
      var rows := Holders(s, AgentKind, obs.agentId);
      var found := obs.agentId != "" && rows != {};
      (s, if found then Merging(obs, ch.pick(ByIdentity(AgentKind, obs.agentId), rows), 0, []) else FindMac(obs))
    case FindMac(obs) =>
      var rows := Holders(s, MacKind, obs.mac);
      var found := HasUniversalMac(obs) && rows != {};
      (s, if found then Merging(obs, ch.pick(ByIdentity(MacKind, obs.mac), rows), 0, []) else Counting(obs, 0, map[]))
    case Counting(obs, k, hits) =>
      var pairs := WeakPairs(obs);
      if k < |pairs| then
        (s, Counting(obs, k + 1, Incremented(hits, Holders(s, pairs[k].0, pairs[k].1))))
      else
        var ds := ch.order(Repeated(hits, hits.Keys));
        (s, if |ds| == 1 then Merging(obs, ds[0], 0, []) else Inserting(obs, ds))
    case Inserting(obs, ds) =>
      (s.(devices := s.devices[ch.drawn := NewDevice(obs, StampOf(obs, ch.now))]), Merging(obs, ch.drawn, 0, ds))
    case Merging(obs, d, k, ds) =>
      if k < |Writes(obs)| then (Apply(s, d, Writes(obs)[k], StampOf(obs, ch.now)), Merging(obs, d, k + 1, ds))
      else (if |ds| >= 2 then s.(pending := s.pending + [PendingMerge(d, ds)]) else s, Finished(d))
    case SavingRow(id, row, given, caps) =>
      var d := if id == "" then ch.drawn else id;
      (s.(devices := s.devices[d := Stored(row, ch.now)]), Saving(d, given, caps, 0))
    case Saving(d, given, caps, k) =>
      if k < |given| then
        (Apply(s, d, Touch(given[k].kind, given[k].value), GivenStamp(given[k], ch.now)), Saving(d, given, caps, k + 1))
      else if k < |given| + |caps| then
        (Apply(s, d, AddCap(caps[k - |given|]), Stamp(ch.now, WholeSecond(ch.now))), Saving(d, given, caps, k + 1))
      else (s, Finished(d))
    case Finished(_) => (s, c)
    case Failed => (s, c)
  }

  // ---- the system -----------------------------------------------------------------------

  datatype System = System(tables: Tables, calls: seq<Call>)

  datatype Event =
    | Begin(call: Call)
    | Statement(caller: nat, choice: Choice)
    | Fail(caller: nat)

  predicate IsEntry(c: Call) {
    c.FindToken? || c.SavingRow?
  }

  /** A call arrives, one statement of one call takes effect, or one call gives up on an error. */
  ghost predicate Next(y: System, e: Event, y': System) {
    match e
    case Begin(c) =>
      IsEntry(c) && y' == System(y.tables, y.calls + [c])
    case Statement(i, ch) =>
      && i < |y.calls| && ch.drawn !in y.tables.devices
      && y' == System(Advance(y.tables, y.calls[i], ch).0, y.calls[i := Advance(y.tables, y.calls[i], ch).1])
    case Fail(i) =>
      i < |y.calls| && y' == System(y.tables, y.calls[i := Failed])
  }

  ghost predicate Execution(ys: seq<System>, es: seq<Event>) {
    && |ys| == |es| + 1
    && ys[0] == System(EMPTY_TABLES, [])
    && forall i :: 0 <= i < |es| ==> Next(ys[i], es[i], ys[i + 1])
  }

  // ---- the invariant --------------------------------------------------------------------

  predicate IsWeak(kind: IdentityKind, value: string) {
    value != "" && (kind == IpKind || kind == HostnameKind || (kind == MacKind && Mac.IsRandomizedMAC(value)))
  }

  predicate Both(s: Tables, d: DeviceId, e: DeviceId, kind: IdentityKind, value: string) {
    IsWeak(kind, value) && Identity(d, kind, value) in s.identities && Identity(e, kind, value) in s.identities
  }

  /** At least two different weak identities are recorded on both devices. */
  ghost predicate ShareTwo(s: Tables, d: DeviceId, e: DeviceId) {
    exists k1, v1, k2, v2 :: (k1 != k2 || v1 != v2) && Both(s, d, e, k1, v1) && Both(s, d, e, k2, v2)
  }

  /** A flagged merge names at least two devices, all real, none the new one, each plausibly the same. */
  ghost predicate Justified(s: Tables, m: PendingMerge) {
    && m.source in s.devices
    && |m.candidates| >= 2
    && Distinct(m.candidates)
    && forall d :: d in m.candidates ==> d != m.source && d in s.devices && ShareTwo(s, m.source, d)
  }

  ghost predicate PendingJustified(s: Tables) {
    forall m :: m in s.pending ==> Justified(s, m)
  }

  /** The devices a call is about to flag are real, distinct and corroborated. */
  ghost predicate Corroborated(s: Tables, obs: Observation, ds: seq<DeviceId>) {
    && Distinct(ds)
    && forall d :: d in ds ==> d in s.devices && WeakHits(s, obs, d) >= 2
  }

  /** What a call may rely on, whatever the other calls do in between. */
  ghost predicate CallSound(s: Tables, c: Call) {
    match c
    case Counting(obs, k, hits) =>
      && k <= |WeakPairs(obs)|
      && forall d :: d in hits ==> hits[d] <= Held(s, WeakPairs(obs)[..k], d)
    case Inserting(obs, ds) => Corroborated(s, obs, ds)
    case Merging(obs, d, k, ds) =>
      && d in s.devices && k <= |Writes(obs)|
      && Corroborated(s, obs, ds) && d !in ds
      && forall i :: 0 <= i < k && Writes(obs)[i].Touch? ==>
        Identity(d, Writes(obs)[i].kind, Writes(obs)[i].value) in s.identities
    case Saving(d, given, caps, k) => d in s.devices
    case _ => true
  }

  ghost predicate IdentitiesExist(s: Tables) {
    forall r :: r in s.identities ==> r.device in s.devices
  }

  ghost predicate Sound(y: System) {
    && IdentitiesExist(y.tables)
    && PendingJustified(y.tables)
    && forall i :: 0 <= i < |y.calls| ==> CallSound(y.tables, y.calls[i])
  }

  // ---- nothing is ever taken back -------------------------------------------------------

  predicate Grows(s: Tables, s': Tables) {
    s.devices.Keys <= s'.devices.Keys && s.identities.Keys <= s'.identities.Keys
  }

  lemma KeepsIdentity(s: Tables, s': Tables, r: Identity)
    requires Grows(s, s') && r in s.identities
    ensures r in s'.identities
  {
    assert r in s.identities.Keys;
  }

  lemma {:induction false} HeldGrows(s: Tables, s': Tables, pairs: seq<(IdentityKind, string)>, d: DeviceId)
    requires Grows(s, s')
    ensures Held(s, pairs, d) <= Held(s', pairs, d)
  {
    if pairs != [] {
      HeldGrows(s, s', pairs[..|pairs| - 1], d);
      var p := pairs[|pairs| - 1];
      if Identity(d, p.0, p.1) in s.identities {
        KeepsIdentity(s, s', Identity(d, p.0, p.1));
      }
    }
  }

  lemma WeakHitsGrow(s: Tables, s': Tables, obs: Observation, d: DeviceId)
    requires Grows(s, s')
    ensures WeakHits(s, obs, d) <= WeakHits(s', obs, d)
  {
    assert forall r :: r in s.identities.Keys ==> r in s'.identities.Keys;
  }

  lemma JustifiedStays(s: Tables, s': Tables, m: PendingMerge)
    requires Grows(s, s') && Justified(s, m)
    ensures Justified(s', m)
  {
    hide IsWeak;
    assert m.source in s.devices.Keys;
    forall d | d in m.candidates
      ensures d in s'.devices && ShareTwo(s', m.source, d)
    {
      assert d in s.devices.Keys;
      var k1, v1, k2, v2 :| (k1 != k2 || v1 != v2) && Both(s, m.source, d, k1, v1) && Both(s, m.source, d, k2, v2);
      BothStays(s, s', m.source, d, k1, v1);
      BothStays(s, s', m.source, d, k2, v2);
    }
  }

  lemma BothStays(s: Tables, s': Tables, d: DeviceId, e: DeviceId, kind: IdentityKind, value: string)
    requires Grows(s, s') && Both(s, d, e, kind, value)
    ensures Both(s', d, e, kind, value)
  {
    KeepsIdentity(s, s', Identity(d, kind, value));
    KeepsIdentity(s, s', Identity(e, kind, value));
  }

  lemma CorroboratedStays(s: Tables, s': Tables, obs: Observation, ds: seq<DeviceId>)
    requires Grows(s, s') && Corroborated(s, obs, ds)
    ensures Corroborated(s', obs, ds)
  {
    hide WeakHits;
    forall d | d in ds
      ensures d in s'.devices && WeakHits(s', obs, d) >= 2
    {
      assert d in s.devices.Keys;
      WeakHitsGrow(s, s', obs, d);
    }
  }

  /** Whatever another call writes, this one's reliance survives. */
  lemma CallSoundStays(s: Tables, s': Tables, c: Call)
    requires Grows(s, s') && CallSound(s, c)
    ensures CallSound(s', c)
  {
    hide Corroborated, Held, WeakPairs, Writes;
    match c
    case Counting(obs, k, hits) =>
      forall d | d in hits
        ensures hits[d] <= Held(s', WeakPairs(obs)[..k], d)
      {
        HeldGrows(s, s', WeakPairs(obs)[..k], d);
      }
    case Inserting(obs, ds) => CorroboratedStays(s, s', obs, ds);
    case Merging(obs, d, k, ds) =>
      CorroboratedStays(s, s', obs, ds);
      assert d in s.devices.Keys;
      forall i | 0 <= i < k && Writes(obs)[i].Touch?
        ensures Identity(d, Writes(obs)[i].kind, Writes(obs)[i].value) in s'.identities
      {
        KeepsIdentity(s, s', Identity(d, Writes(obs)[i].kind, Writes(obs)[i].value));
      }
    case Saving(d, given, caps, k) => assert d in s.devices.Keys;
    case _ =>
  }

  // ---- one statement --------------------------------------------------------------------

  lemma ApplyGrows(s: Tables, d: DeviceId, w: Write, stamp: Stamp)
    requires IdentitiesExist(s) && d in s.devices
    ensures var s' := Apply(s, d, w, stamp);
      Grows(s, s') && IdentitiesExist(s') && s'.pending == s.pending
      && (w.Touch? ==> Identity(d, w.kind, w.value) in s'.identities)
  {
  }

  lemma CountingSound(s: Tables, obs: Observation, k: nat, hits: map<DeviceId, nat>)
    requires CallSound(s, Counting(obs, k, hits)) && k < |WeakPairs(obs)|
    ensures var p := WeakPairs(obs)[k]; CallSound(s, Counting(obs, k + 1, Incremented(hits, Holders(s, p.0, p.1))))
  {
    hide WeakPairs, Holders;
    var pairs := WeakPairs(obs);
    var p := pairs[k];
    var rows := Holders(s, p.0, p.1);
    var hits' := Incremented(hits, rows);
    assert pairs[..k + 1][..k] == pairs[..k];
    forall d | d in hits'
      ensures hits'[d] <= Held(s, pairs[..k + 1], d)
    {
      HoldersIff(s, p.0, p.1, d);
    }
  }

  lemma ConfidentSound(s: Tables, obs: Observation, hits: map<DeviceId, nat>, ds: seq<DeviceId>)
    requires IdentitiesExist(s)
    requires CallSound(s, Counting(obs, |WeakPairs(obs)|, hits))
    requires Lists(ds, Repeated(hits, hits.Keys))
    ensures Corroborated(s, obs, ds)
  {
    hide WeakPairs, WeakHits, Held;
    HeldIsWeakHits(s, obs, WeakPairs(obs));
    assert WeakPairs(obs)[..|WeakPairs(obs)|] == WeakPairs(obs);
    forall d | d in ds
      ensures d in s.devices && WeakHits(s, obs, d) >= 2
    {
      assert d in Repeated(hits, hits.Keys);
      HitExists(s, obs, d);
    }
  }

  lemma HitExists(s: Tables, obs: Observation, d: DeviceId)
    requires IdentitiesExist(s) && WeakHits(s, obs, d) >= 1
    ensures d in s.devices
  {
    var r :| r in s.identities && r.device == d;
  }

  lemma WeakAmongTouches(obs: Observation, kind: IdentityKind, value: string)
    requires value != "" && (kind, value) in {(IpKind, obs.ip), (HostnameKind, obs.hostname), (MacKind, obs.mac)}
    ensures exists i :: 0 <= i < |Writes(obs)| && Writes(obs)[i] == Touch(kind, value)
  {
    var a, m := TouchOf(AgentKind, obs.agentId), TouchOf(MacKind, obs.mac);
    var p, h := TouchOf(IpKind, obs.ip), TouchOf(HostnameKind, obs.hostname);
    var i := if kind == MacKind then |a| else if kind == IpKind then |a| + |m| else |a| + |m| + |p|;
    assert Writes(obs)[i] == Touch(kind, value);
  }

  /** With all its writes done, the source holds every weak signal, so it shares what made a candidate. */
  lemma SharesTwoAtFlagging(s: Tables, obs: Observation, d: DeviceId, ds: seq<DeviceId>, e: DeviceId)
    requires CallSound(s, Merging(obs, d, |Writes(obs)|, ds)) && e in ds
    ensures ShareTwo(s, d, e)
  {
    SourceHolds(s, obs, d, ds, IpKind, obs.ip);
    SourceHolds(s, obs, d, ds, HostnameKind, obs.hostname);
    SourceHolds(s, obs, d, ds, MacKind, WeakMac(obs));
    assert WeakHits(s, obs, e) >= 2;
    hide Writes, CallSound, Mac.IsRandomizedMAC;
    if Hit(s, e, IpKind, obs.ip) == 1 {
      assert Both(s, d, e, IpKind, obs.ip);
      if Hit(s, e, HostnameKind, obs.hostname) == 1 {
        assert Both(s, d, e, HostnameKind, obs.hostname);
      } else {
        assert Both(s, d, e, MacKind, WeakMac(obs));
      }
    } else {
      assert Both(s, d, e, HostnameKind, obs.hostname);
      assert Both(s, d, e, MacKind, WeakMac(obs));
    }
  }

  lemma SourceHolds(s: Tables, obs: Observation, d: DeviceId, ds: seq<DeviceId>, kind: IdentityKind, value: string)
    requires CallSound(s, Merging(obs, d, |Writes(obs)|, ds))
    requires (kind, value) in {(IpKind, obs.ip), (HostnameKind, obs.hostname), (MacKind, WeakMac(obs))}
    ensures value != "" ==> Identity(d, kind, value) in s.identities
  {
    hide Writes, Corroborated;
    if value != "" {
      WeakAmongTouches(obs, kind, value);
    }
  }

  lemma PendingStays(s: Tables, s': Tables)
    requires PendingJustified(s) && Grows(s, s') && s'.pending == s.pending
    ensures PendingJustified(s')
  {
    hide Justified, Grows;
    forall m | m in s'.pending
      ensures Justified(s', m)
    {
      JustifiedStays(s, s', m);
    }
  }

  lemma FlaggingSound(s: Tables, obs: Observation, d: DeviceId, ds: seq<DeviceId>)
    requires IdentitiesExist(s) && PendingJustified(s) && |ds| >= 2
    requires CallSound(s, Merging(obs, d, |Writes(obs)|, ds))
    ensures PendingJustified(s.(pending := s.pending + [PendingMerge(d, ds)]))
  {
    var s' := s.(pending := s.pending + [PendingMerge(d, ds)]);
    forall e | e in ds
      ensures ShareTwo(s, d, e)
    {
      SharesTwoAtFlagging(s, obs, d, ds, e);
    }
    assert Justified(s, PendingMerge(d, ds)) by {
      hide ShareTwo, Writes;
    }
    hide Justified, CallSound;
    forall m | m in s'.pending
      ensures Justified(s', m)
    {
      JustifiedStays(s, s', m);
    }
  }

  lemma MergeWriteSound(s: Tables, obs: Observation, d: DeviceId, k: nat, ds: seq<DeviceId>, stamp: Stamp)
    requires IdentitiesExist(s) && CallSound(s, Merging(obs, d, k, ds)) && k < |Writes(obs)|
    ensures var s' := Apply(s, d, Writes(obs)[k], stamp);
      Grows(s, s') && IdentitiesExist(s') && s'.pending == s.pending && CallSound(s', Merging(obs, d, k + 1, ds))
  {
    hide Writes, Corroborated;
    var w := Writes(obs)[k];
    var s' := Apply(s, d, w, stamp);
    ApplyGrows(s, d, w, stamp);
    hide Apply, IdentitiesExist;
    CallSoundStays(s, s', Merging(obs, d, k, ds));
  }

  lemma InsertSound(s: Tables, obs: Observation, ds: seq<DeviceId>, drawn: DeviceId, row: Device)
    requires IdentitiesExist(s) && CallSound(s, Inserting(obs, ds)) && drawn !in s.devices
    ensures var s' := s.(devices := s.devices[drawn := row]);
      Grows(s, s') && IdentitiesExist(s') && CallSound(s', Merging(obs, drawn, 0, ds))
  {
    var s' := s.(devices := s.devices[drawn := row]);
    assert drawn !in ds;
    CorroboratedStays(s, s', obs, ds);
    hide Writes, Corroborated;
  }

  lemma CountStepSound(s: Tables, obs: Observation, k: nat, hits: map<DeviceId, nat>, ch: Choice)
    requires IdentitiesExist(s) && CallSound(s, Counting(obs, k, hits))
    ensures Advance(s, Counting(obs, k, hits), ch).0 == s
    ensures CallSound(s, Advance(s, Counting(obs, k, hits), ch).1)
  {
    hide WeakPairs, Corroborated, Held, Writes, Holders;
    if k < |WeakPairs(obs)| {
      CountingSound(s, obs, k, hits);
    } else {
      var ds := ch.order(Repeated(hits, hits.Keys));
      ConfidentSound(s, obs, hits, ds);
      if |ds| == 1 {
        LoneConfident(s, obs, ds);
      }
    }
  }

  lemma LoneConfident(s: Tables, obs: Observation, ds: seq<DeviceId>)
    requires Corroborated(s, obs, ds) && |ds| == 1
    ensures CallSound(s, Merging(obs, ds[0], 0, []))
  {
  }

  lemma MatchSound(s: Tables, obs: Observation, d: DeviceId)
    requires d in s.devices
    ensures CallSound(s, Merging(obs, d, 0, []))
  {
  }

  lemma FindSound(s: Tables, c: Call, ch: Choice)
    requires IdentitiesExist(s) && (c.FindToken? || c.FindAgent? || c.FindMac?)
    ensures Advance(s, c, ch).0 == s
    ensures CallSound(s, Advance(s, c, ch).1)
  {
    hide CallSound, HasUniversalMac;
    var c' := Advance(s, c, ch).1;
    if c'.Merging? {
      MatchSound(s, c'.obs, c'.device);
    } else if c'.Counting? {
      CountingStarts(s, c'.obs);
    } else {
      SearchSound(s, c');
    }
  }

  lemma CountingStarts(s: Tables, obs: Observation)
    ensures CallSound(s, Counting(obs, 0, map[]))
  {
  }

  lemma SearchSound(s: Tables, c: Call)
    requires c.FindAgent? || c.FindMac?
    ensures CallSound(s, c)
  {
  }

  lemma SaveStepSound(s: Tables, d: DeviceId, given: seq<GivenIdentity>, caps: seq<Capability>, k: nat, ch: Choice)
    requires IdentitiesExist(s) && d in s.devices
    ensures var (s', c') := Advance(s, Saving(d, given, caps, k), ch);
      Grows(s, s') && IdentitiesExist(s') && s'.pending == s.pending && CallSound(s', c')
  {
    if k < |given| {
      ApplyGrows(s, d, Touch(given[k].kind, given[k].value), GivenStamp(given[k], ch.now));
    } else if k < |given| + |caps| {
      ApplyGrows(s, d, AddCap(caps[k - |given|]), Stamp(ch.now, WholeSecond(ch.now)));
    }
  }

  lemma SaveRowSound(s: Tables, id: DeviceId, row: Device, given: seq<GivenIdentity>, caps: seq<Capability>, ch: Choice)
    requires IdentitiesExist(s)
    ensures var (s', c') := Advance(s, SavingRow(id, row, given, caps), ch);
      Grows(s, s') && IdentitiesExist(s') && s'.pending == s.pending && CallSound(s', c')
  {
  }

  /** One statement of a sound call grows the tables and leaves the call sound. */
  lemma StatementSound(s: Tables, c: Call, ch: Choice)
    requires IdentitiesExist(s) && CallSound(s, c) && ch.drawn !in s.devices
    ensures var (s', c') := Advance(s, c, ch);
      Grows(s, s') && IdentitiesExist(s') && CallSound(s', c')
  {
    hide CallSound, IdentitiesExist, Apply, WeakPairs, Writes, Holders, TokenHolders, HasUniversalMac, NewDevice,
         Repeated, Incremented;
    match c
    case Counting(obs, k, hits) => CountStepSound(s, obs, k, hits, ch);
    case Inserting(obs, ds) => InsertSound(s, obs, ds, ch.drawn, NewDevice(obs, StampOf(obs, ch.now)));
    case Merging(obs, d, k, ds) =>
      if k < |Writes(obs)| {
        MergeWriteSound(s, obs, d, k, ds, StampOf(obs, ch.now));
      } else {
        MergeEndSound(s, Advance(s, c, ch).0, d);
      }
    case SavingRow(id, row, given, caps) => SaveRowSound(s, id, row, given, caps, ch);
    case Saving(d, given, caps, k) =>
      SavingExists(s, c);
      SaveStepSound(s, d, given, caps, k, ch);
    case Finished(_) =>
    case Failed =>
    case _ => FindSound(s, c, ch);
  }

  lemma SavingExists(s: Tables, c: Call)
    requires CallSound(s, c) && c.Saving?
    ensures c.device in s.devices
  {
  }

  lemma MergeEndSound(s: Tables, s': Tables, d: DeviceId)
    requires IdentitiesExist(s) && s'.devices == s.devices && s'.identities == s.identities
    ensures IdentitiesExist(s') && CallSound(s', Finished(d))
  {
  }

  /** Only the last statement of a merge touches pending_merges. */
  lemma StatementFlagsJustly(s: Tables, c: Call, ch: Choice)
    requires IdentitiesExist(s) && PendingJustified(s) && CallSound(s, c) && ch.drawn !in s.devices
    ensures PendingJustified(Advance(s, c, ch).0)
  {
    hide CallSound, IdentitiesExist, PendingJustified, WeakPairs, Writes, Holders, TokenHolders, HasUniversalMac,
         NewDevice, Repeated, Incremented, Grows;
    var s' := Advance(s, c, ch).0;
    if c.Merging? && c.written >= |Writes(c.obs)| && |c.flag| >= 2 {
      AllWritten(s, c);
      FlaggingSound(s, c.obs, c.device, c.flag);
    } else {
      StatementSound(s, c, ch);
      PendingStays(s, s');
    }
  }

  lemma AllWritten(s: Tables, c: Call)
    requires CallSound(s, c) && c.Merging? && c.written >= |Writes(c.obs)|
    ensures CallSound(s, Merging(c.obs, c.device, |Writes(c.obs)|, c.flag))
  {
    hide Writes;
  }

  /** Soundness is kept by every event. */
  lemma NextSound(y: System, e: Event, y': System)
    requires Sound(y) && Next(y, e, y')
    ensures Sound(y')
  {
    hide CallSound, Advance, IdentitiesExist, PendingJustified;
    match e
    case Begin(c) => EntrySound(y.tables, c);
    case Statement(i, ch) =>
      StatementSound(y.tables, y.calls[i], ch);
      StatementFlagsJustly(y.tables, y.calls[i], ch);
      forall j | 0 <= j < |y'.calls|
        ensures CallSound(y'.tables, y'.calls[j])
      {
        if j != i {
          CallSoundStays(y.tables, y'.tables, y.calls[j]);
        }
      }
    case Fail(i) => EntrySound(y.tables, Failed);
  }

  lemma EntrySound(s: Tables, c: Call)
    requires IsEntry(c) || c.Failed?
    ensures CallSound(s, c)
  {
  }

  /**
   * In every state of every execution, however the statements of concurrent calls interleave
   * and wherever they fail, every flagged merge is justified.
   */
  lemma {:induction false} EveryFlaggedMergeIsJustified(ys: seq<System>, es: seq<Event>, i: nat)
    requires Execution(ys, es) && i <= |es|
    ensures Sound(ys[i]) && PendingJustified(ys[i].tables)
  {
    if i > 0 {
      EveryFlaggedMergeIsJustified(ys, es, i - 1);
      assert Next(ys[i - 1], es[i - 1], ys[i]);
      NextSound(ys[i - 1], es[i - 1], ys[i]);
    }
  }

  // ---- a call left alone ----------------------------------------------------------------

  function Phase(c: Call): nat {
    match c
    case FindToken(_) => 7
    case FindAgent(_) => 6
    case FindMac(_) => 5
    case Counting(_, _, _) => 4
    case Inserting(_, _) => 3
    case Merging(_, _, _, _) => 2
    case SavingRow(_, _, _, _) => 2
    case Saving(_, _, _, _) => 1
    case Finished(_) => 0
    case Failed => 0
  }

  function Remaining(c: Call): int {
    match c
    case Counting(obs, k, _) => |WeakPairs(obs)| - k
    case Merging(obs, _, k, _) => |Writes(obs)| - k
    case Saving(_, given, caps, k) => |given| + |caps| - k
    case _ => 0
  }

  /** Statement after statement of one call, with nobody else in between. */
  function Complete(s: Tables, c: Call, ch: Choice): (Tables, Call)
    decreases Phase(c), Remaining(c)
  {
    if c.Finished? || c.Failed? then (s, c)
    else
      var (s', c') := Advance(s, c, ch);
      Complete(s', c', ch)
  }

  function ApplyAll(s: Tables, d: DeviceId, ws: seq<Write>, stamp: Stamp): Tables
    decreases |ws|
  {
    if ws == [] then s else ApplyAll(Apply(s, d, ws[0], stamp), d, ws[1..], stamp)
  }

  lemma {:induction false} ApplyAllAppend(s: Tables, d: DeviceId, xs: seq<Write>, ys: seq<Write>, stamp: Stamp)
    ensures ApplyAll(s, d, xs + ys, stamp) == ApplyAll(ApplyAll(s, d, xs, stamp), d, ys, stamp)
    decreases |xs|
  {
    hide Apply;
    if xs == [] {
      assert xs + ys == ys;
    } else {
      assert (xs + ys)[1..] == xs[1..] + ys;
      ApplyAllAppend(Apply(s, d, xs[0], stamp), d, xs[1..], ys, stamp);
    }
  }

  lemma ApplyTouchOf(s: Tables, d: DeviceId, kind: IdentityKind, value: string, stamp: Stamp)
    ensures ApplyAll(s, d, TouchOf(kind, value), stamp) ==
            s.(identities := Noted(s.identities, d, kind, value, stamp.seen))
  {
    if value != "" {
      assert [Touch(kind, value)][1..] == [];
      assert ApplyAll(Apply(s, d, Touch(kind, value), stamp), d, [], stamp) == Apply(s, d, Touch(kind, value), stamp);
    }
  }

  lemma {:induction false} ApplyAddCaps(s: Tables, d: DeviceId, caps: seq<Capability>, stamp: Stamp)
    ensures ApplyAll(s, d, AddCaps(caps), stamp) == s.(caps := s.caps + CapRows(d, caps))
    decreases |caps|
  {
    if caps == [] {
      assert CapRows(d, caps) == {};
    } else {
      var s1 := Apply(s, d, AddCap(caps[0]), stamp);
      assert AddCaps(caps)[1..] == AddCaps(caps[1..]);
      ApplyAddCaps(s1, d, caps[1..], stamp);
      assert caps == [caps[0]] + caps[1..];
      assert s1.caps + CapRows(d, caps[1..]) == s.caps + CapRows(d, caps);
    }
  }

  lemma TouchesAreSighted(s: Tables, d: DeviceId, obs: Observation, stamp: Stamp)
    ensures ApplyAll(s, d, Touches(obs), stamp) == s.(identities := Sighted(s.identities, d, obs, stamp.seen))
  {
    hide ApplyAll, TouchOf, Noted;
    var a, m := TouchOf(AgentKind, obs.agentId), TouchOf(MacKind, obs.mac);
    var p, h := TouchOf(IpKind, obs.ip), TouchOf(HostnameKind, obs.hostname);
    ApplyAllAppend(s, d, a + m + p, h, stamp);
    ApplyAllAppend(s, d, a + m, p, stamp);
    ApplyAllAppend(s, d, a, m, stamp);
    ApplyTouchOf(s, d, AgentKind, obs.agentId, stamp);
    var s1 := ApplyAll(s, d, a, stamp);
    ApplyTouchOf(s1, d, MacKind, obs.mac, stamp);
    var s2 := ApplyAll(s1, d, m, stamp);
    ApplyTouchOf(s2, d, IpKind, obs.ip, stamp);
    var s3 := ApplyAll(s2, d, p, stamp);
    ApplyTouchOf(s3, d, HostnameKind, obs.hostname, stamp);
  }

  /** mergeObservation's statements, one after the other, are one merge. */
  lemma WritesAreMerged(s: Tables, d: DeviceId, obs: Observation, stamp: Stamp)
    ensures ApplyAll(s, d, Writes(obs), stamp) == Merged(s, d, obs, stamp)
  {
    var caps := if obs.source == "agent" then obs.caps else [];
    var ts, cs := Touches(obs), AddCaps(caps);
    assert CapRows(d, caps) == ReportedCaps(d, obs);
    hide Touches, AddCaps, Sighted, ReportedCaps;
    ApplyAllAppend(s, d, ts + cs, [SetLastSeen], stamp);
    ApplyAllAppend(s, d, ts, cs, stamp);
    TouchesAreSighted(s, d, obs, stamp);
    ApplyAddCaps(s.(identities := Sighted(s.identities, d, obs, stamp.seen)), d, caps, stamp);
    LastWrite(ApplyAll(s, d, ts + cs, stamp), d, stamp);
  }

  lemma LastWrite(s: Tables, d: DeviceId, stamp: Stamp)
    ensures ApplyAll(s, d, [SetLastSeen], stamp) == s.(devices := Touched(s, d, stamp))
  {
    var after := s.(devices := Touched(s, d, stamp));
    assert ApplyAll(after, d, [SetLastSeen][1..], stamp) == after;
  }

  lemma {:induction false} MergeCompletes(s: Tables, obs: Observation, d: DeviceId, k: nat, ds: seq<DeviceId>,
                                          ch: Choice)
    requires k <= |Writes(obs)|
    ensures var after := ApplyAll(s, d, Writes(obs)[k..], StampOf(obs, ch.now));
      Complete(s, Merging(obs, d, k, ds), ch) ==
      (if |ds| >= 2 then after.(pending := after.pending + [PendingMerge(d, ds)]) else after, Finished(d))
    decreases |Writes(obs)| - k
  {
    hide Writes, Apply;
    if k < |Writes(obs)| {
      var ws := Writes(obs)[k..];
      assert ws[1..] == Writes(obs)[k + 1..];
      MergeCompletes(Apply(s, d, ws[0], StampOf(obs, ch.now)), obs, d, k + 1, ds, ch);
    }
  }

  lemma MergeIsMerged(s: Tables, obs: Observation, d: DeviceId, ds: seq<DeviceId>, ch: Choice)
    ensures var after := Merged(s, d, obs, StampOf(obs, ch.now));
      Complete(s, Merging(obs, d, 0, ds), ch) ==
      (if |ds| >= 2 then after.(pending := after.pending + [PendingMerge(d, ds)]) else after, Finished(d))
  {
    hide Complete, Writes, Merged, ApplyAll;
    assert Writes(obs)[0..] == Writes(obs);
    MergeCompletes(s, obs, d, 0, ds, ch);
    WritesAreMerged(s, d, obs, StampOf(obs, ch.now));
  }

  /** Counting to the end finds the confident devices, and acts on how many there are. */
  lemma {:induction false} CountCompletes(s: Tables, obs: Observation, k: nat, hits: map<DeviceId, nat>, ch: Choice)
    requires k <= |WeakPairs(obs)| && Tallies(s, WeakPairs(obs)[..k], hits)
    ensures var ds := ch.order(Confident(s, obs));
      Complete(s, Counting(obs, k, hits), ch) ==
      Complete(s, if |ds| == 1 then Merging(obs, ds[0], 0, []) else Inserting(obs, ds), ch)
    decreases |WeakPairs(obs)| - k
  {
    hide WeakPairs, Held, Holders, Confident, Incremented, Writes;
    var pairs := WeakPairs(obs);
    if k < |pairs| {
      TallyGrows(s, pairs, k, hits);
      CountCompletes(s, obs, k + 1, Incremented(hits, Holders(s, pairs[k].0, pairs[k].1)), ch);
    } else {
      assert pairs[..k] == pairs;
      HeldIsWeakHits(s, obs, pairs);
      HitsAreConfident(s, obs, hits);
    }
  }

  /** From the weak layer on. */
  lemma WeakCompletes(s: Tables, obs: Observation, ch: Choice)
    requires StrongMatch(s, obs, ch.pick).None?
    ensures var (s', c') := Complete(s, Counting(obs, 0, map[]), ch);
      c'.Finished? && Reconciled(s, obs, ch.pick, ch.drawn, ch.now, s', c'.answer)
  {
    hide WeakPairs, Confident, Complete, StrongMatch, Merged, Writes, NewDevice, Held;
    var ds := ch.order(Confident(s, obs));
    ListsLength(ds, Confident(s, obs));
    CountingBegins(s, obs);
    CountCompletes(s, obs, 0, map[], ch);
    if |ds| == 1 {
      MergeIsMerged(s, obs, ds[0], [], ch);
    } else {
      InsertCompletes(s, obs, ds, ch);
      CreatedIsReconciled(s, obs, ds, ch);
    }
  }

  lemma CreatedIsReconciled(s: Tables, obs: Observation, ds: seq<DeviceId>, ch: Choice)
    requires StrongMatch(s, obs, ch.pick).None? && Lists(ds, Confident(s, obs)) && |ds| == |Confident(s, obs)| != 1
    ensures var after := Created(s, ch.drawn, obs, StampOf(obs, ch.now));
      Reconciled(s, obs, ch.pick, ch.drawn, ch.now,
                 if |ds| >= 2 then after.(pending := after.pending + [PendingMerge(ch.drawn, ds)]) else after, ch.drawn)
  {
    hide Confident, StrongMatch, Sighted, ReportedCaps, Touched, NewDevice;
  }

  lemma CountingBegins(s: Tables, obs: Observation)
    ensures Tallies(s, WeakPairs(obs)[..0], map[])
  {
  }

  lemma InsertCompletes(s: Tables, obs: Observation, ds: seq<DeviceId>, ch: Choice)
    ensures var after := Created(s, ch.drawn, obs, StampOf(obs, ch.now));
      Complete(s, Inserting(obs, ds), ch) ==
      (if |ds| >= 2 then after.(pending := after.pending + [PendingMerge(ch.drawn, ds)]) else after, Finished(ch.drawn))
  {
    hide Merged, Writes, NewDevice;
    MergeIsMerged(s.(devices := s.devices[ch.drawn := NewDevice(obs, StampOf(obs, ch.now))]), obs, ch.drawn, ds, ch);
  }

  /**
   * The two views agree: a Reconcile whose statements run with nobody else in between finishes,
   * and does exactly what one atomic Reconcile does.
   */
  lemma UninterruptedIsReconciled(s: Tables, obs: Observation, ch: Choice)
    ensures var (s', c') := Complete(s, FindToken(obs), ch);
      c'.Finished? && Reconciled(s, obs, ch.pick, ch.drawn, ch.now, s', c'.answer)
  {
    hide Complete, Holders, TokenHolders, Merged, Writes, Reconciled, Created;
    var strong := StrongMatch(s, obs, ch.pick);
    SearchCompletes(s, obs, ch);
    if strong.Some? {
      MergeIsMerged(s, obs, strong.value, [], ch);
      StrongIsReconciled(s, obs, ch.pick, ch.drawn, ch.now);
    } else {
      WeakCompletes(s, obs, ch);
    }
  }

  lemma StrongIsReconciled(s: Tables, obs: Observation, pick: Lookup, drawn: DeviceId, now: Time)
    requires StrongMatch(s, obs, pick).Some?
    ensures var d := StrongMatch(s, obs, pick).value;
      Reconciled(s, obs, pick, drawn, now, Merged(s, d, obs, StampOf(obs, now)), d)
  {
    hide StrongMatch, Merged;
  }

  /** The three single-row queries find the strong match, or hand over to the weak layer. */
  lemma SearchCompletes(s: Tables, obs: Observation, ch: Choice)
    ensures var strong := StrongMatch(s, obs, ch.pick);
      Complete(s, FindToken(obs), ch) ==
      Complete(s, if strong.Some? then Merging(obs, strong.value, 0, []) else Counting(obs, 0, map[]), ch)
  {
    hide Holders, TokenHolders, HasUniversalMac, WeakPairs, Writes;
    assert Complete(s, FindMac(obs), ch) == Complete(s, Advance(s, FindMac(obs), ch).1, ch);
    assert Complete(s, FindAgent(obs), ch) == Complete(s, Advance(s, FindAgent(obs), ch).1, ch);
    assert Complete(s, FindToken(obs), ch) == Complete(s, Advance(s, FindToken(obs), ch).1, ch);
  }

  // ---- Upsert left alone ----------------------------------------------------------------

  lemma GivenStep(s: Tables, d: DeviceId, given: seq<GivenIdentity>, caps: seq<Capability>, k: nat, ch: Choice)
    requires k < |given|
    ensures Complete(s, Saving(d, given, caps, k), ch) ==
            Complete(Apply(s, d, Touch(given[k].kind, given[k].value), GivenStamp(given[k], ch.now)),
                     Saving(d, given, caps, k + 1), ch)
  {
    hide Apply;
  }

  /** The first k given identities, one statement each, are their rows. */
  lemma {:induction false} GivenCompletes(s: Tables, d: DeviceId, given: seq<GivenIdentity>, caps: seq<Capability>,
                                          k: nat, ch: Choice)
    requires k <= |given|
    ensures Complete(s, Saving(d, given, caps, 0), ch) ==
            Complete(s.(identities := s.identities + GivenRows(d, given[..k], ch.now)), Saving(d, given, caps, k), ch)
  {
    hide Complete;
    if k == 0 {
      assert s.identities + GivenRows(d, given[..0], ch.now) == s.identities;
    } else {
      hide GivenRows;
      GivenCompletes(s, d, given, caps, k - 1, ch);
      var s0 := s.(identities := s.identities + GivenRows(d, given[..k - 1], ch.now));
      GivenStep(s0, d, given, caps, k - 1, ch);
      MoreGivenRows(s0.identities, s.identities, d, given, k - 1, ch.now);
    }
  }

  lemma CapStep(s: Tables, d: DeviceId, given: seq<GivenIdentity>, caps: seq<Capability>, j: nat, ch: Choice)
    requires j < |caps|
    ensures Complete(s, Saving(d, given, caps, |given| + j), ch) ==
            Complete(s.(caps := s.caps + {CapRow(d, caps[j])}), Saving(d, given, caps, |given| + j + 1), ch)
  {
  }

  lemma MoreCapRows(d: DeviceId, caps: seq<Capability>, k: nat)
    requires 0 < k <= |caps|
    ensures CapRows(d, caps[..k]) == CapRows(d, caps[..k - 1]) + {CapRow(d, caps[k - 1])}
  {
    assert caps[..k] == caps[..k - 1] + [caps[k - 1]];
  }

  /** The first k capabilities after them, likewise. */
  lemma {:induction false} CapsComplete(s: Tables, d: DeviceId, given: seq<GivenIdentity>, caps: seq<Capability>,
                                        k: nat, ch: Choice)
    requires k <= |caps|
    ensures Complete(s, Saving(d, given, caps, |given|), ch) ==
            Complete(s.(caps := s.caps + CapRows(d, caps[..k])), Saving(d, given, caps, |given| + k), ch)
  {
    hide Complete;
    if k == 0 {
      assert s.caps + CapRows(d, caps[..0]) == s.caps;
    } else {
      hide CapRows;
      CapsComplete(s, d, given, caps, k - 1, ch);
      var s0 := s.(caps := s.caps + CapRows(d, caps[..k - 1]));
      CapStep(s0, d, given, caps, k - 1, ch);
      MoreCapRows(d, caps, k);
      assert s0.caps + {CapRow(d, caps[k - 1])} == s.caps + CapRows(d, caps[..k]);
      assert s0.(caps := s0.caps + {CapRow(d, caps[k - 1])}) == s.(caps := s.caps + CapRows(d, caps[..k]));
    }
  }

  /** An Upsert whose statements run with nobody else in between does exactly what the atomic one does. */
  lemma UninterruptedIsSaved(s: Tables, id: DeviceId, row: Device, given: seq<GivenIdentity>, caps: seq<Capability>,
                             ch: Choice)
    ensures var d := if id == "" then ch.drawn else id;
      Complete(s, SavingRow(id, row, given, caps), ch) == (Saved(s, d, row, given, caps, ch.now), Finished(d))
  {
    var d := if id == "" then ch.drawn else id;
    var s0 := s.(devices := s.devices[d := Stored(row, ch.now)]);
    var s1 := s0.(identities := s0.identities + GivenRows(d, given, ch.now));
    var s2 := s1.(caps := s1.caps + CapRows(d, caps));
    assert Complete(s, SavingRow(id, row, given, caps), ch) == Complete(s0, Saving(d, given, caps, 0), ch);
    assert Complete(s2, Saving(d, given, caps, |given| + |caps|), ch) == (s2, Finished(d));
    hide Complete, GivenRows, CapRows;
    assert given[..|given|] == given && caps[..|caps|] == caps;
    GivenCompletes(s0, d, given, caps, |given|, ch);
    CapsComplete(s1, d, given, caps, |caps|, ch);
  }
}
